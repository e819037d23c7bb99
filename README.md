# Severatee core, modelled in Dafny

Severatee is a Next.js application. Its server side is a set of tRPC routers over a
Postgres database (through drizzle), and its browser side is a handful of React
components over that API. This project models the logic the application owns itself:

- **Workspace tenancy.** Workspaces, their memberships (soft-deleted) and invitations
  (hard-deleted), with the database constraints and row-level policies of the schema. The
  model covers creation, listing, role change and removal under the last-owner guard, the
  settings update, and invitation issue, listing, revoke and accept.
- **The client RBAC context.** The role-to-permission table, the derived permission
  list, and the provider state: the user's profile, the memberships, and the selection,
  which is remembered in browser storage.
- **The Lumon agent and task store.** Agents, tasks and submissions, with the routers'
  habit of rewrapping every error raised inside a `try` as INTERNAL_SERVER_ERROR.
- **The chat store.** Chats and messages, with ownership checks, a replace-all
  `saveMessages` and an append-only `addMessage`.
- **The profile store.** Soft delete, filtered listing and the initial profile named
  after the email's local part.
- **The session middleware's redirect decision.**
- **Token freshness.** The browser's provider-token cache and the server actions that
  refresh a Google access token, with a five-minute freshness buffer and a one-hour
  default lifetime.
- **The settings UI's guards.** The members table, the invitations table and the
  section filter of the settings page, and the sidebar's display name and initials.

Every server procedure is written twice:

- as a pure transition function in a `...Spec` module, from the tables before the call
  to a `Step(tables, result)`;
- as a method of a class whose fields are those tables, proved to perform that
  transition and to keep the database constraints (`Valid`).

The properties are lemmas about the transition functions. A statement the database
refuses (primary key, unique, NOT NULL or foreign key violation, or an over-long
varchar) is modelled as the call failing with INTERNAL_SERVER_ERROR and no change. Inside
a transaction the whole call then rolls back. Outside one (saveMessages), the statements
already run stay done.

Everything the code cannot decide for itself is a parameter of the operation:

- the clock (`now`, milliseconds);
- the random uuids of new rows;
- the authenticated user;
- the Privy wallet address;
- Google's token endpoint (`exchange`);
- the server action's answer as the browser sees it;
- the Supabase session.

Strings are sequences of characters, and upper-casing is ASCII only.

Files: `common.dfy` (shared vocabulary), `workspaces_schema.dfy`,
`profiles_schema.dfy`, `workspace_router.dfy`, `rbac.dfy`, `lumon.dfy`, `chats.dfy`,
`profiles.dfy`, `middleware.dfy`, `google_auth.dfy`, `token_manager.dfy`,
`members_table.dfy`, `settings_page.dfy`, `invitations_table.dfy`, `nav_user.dfy`.

## Model

| member | source | states |
|---|---|---|
| Common.Split | apps/web/src/app/lumon/_components/sidebar/nav-user.tsx:59-60 | `split` on one character always yields at least one piece, no piece contains the separator, the first piece is the longest separator-free prefix, and there is one piece exactly when the separator is absent |
| Common.JoinSplit | apps/web/src/app/lumon/_components/sidebar/nav-user.tsx:59-62 | joining the pieces of a split with the same separator gives back the string |
| Common.BeforeFirst | apps/web/src/server/api/routers/profile_router.ts:137 | `split("@")[0]` is a prefix without "@", followed by "@" unless it is the whole string, and is the whole string exactly when there is no "@" |
| Common.UpperChar | apps/web/src/app/lumon/_components/sidebar/nav-user.tsx:64 | `toUpperCase` maps a lower-case ASCII letter to its capital and leaves every other character alone |
| Common.Upper | apps/web/src/app/lumon/_components/sidebar/nav-user.tsx:64 | upper-casing keeps the length and maps each character by UpperChar |
| Common.SortBy | apps/web/src/server/api/routers/chats_router.ts:82-85 | an `orderBy` listing holds every row exactly once, in key order (descending when asked) |
| WorkspacesSchema.ParseRole | apps/web/src/server/db/schemas/workspaces_schema.ts:32-36 | the role enum accepts a name only when it names that role |
| WorkspacesSchema.RoleNamesRoundTrip | apps/web/src/server/db/schemas/workspaces_schema.ts:32-36 | the enum admits exactly "owner", "admin" and "member", each name parses back to its role, and ROLES lists every role |
| WorkspacesSchema.ParseStatus | apps/web/src/server/db/schemas/workspaces_schema.ts:39-44 | the status enum accepts a name only when it names that status |
| WorkspacesSchema.StatusNamesRoundTrip | apps/web/src/server/db/schemas/workspaces_schema.ts:39-44 | the status enum admits exactly pending, accepted, declined and expired, each of which parses back |
| WorkspacesSchema.InsertedWorkspace | apps/web/src/server/db/schemas/workspaces_schema.ts:47-66 | a new workspace row carries the supplied columns, the member role default, both timestamps at now and no deletion time |
| WorkspacesSchema.InsertedMember | apps/web/src/server/db/schemas/workspaces_schema.ts:108-126 | a new membership carries the supplied role or the member default, both timestamps at now and no deletion time |
| WorkspacesSchema.InsertedInvitation | apps/web/src/server/db/schemas/workspaces_schema.ts:162-182 | a new invitation defaults its role to member and its status to pending, and always carries the supplied expiry |
| WorkspacesSchema.InsertKeepsUniqueMemberships | apps/web/src/server/db/schemas/workspaces_schema.ts:128 | inserting a membership for a (workspace, user) pair that has no row, removed or not, keeps the pair unique |
| WorkspacesSchema.SamePairKeepsUniqueMemberships | apps/web/src/server/db/schemas/workspaces_schema.ts:128 | rewriting a membership row without changing its pair keeps the pair unique |
| WorkspacesSchema.WriteKeepsUniqueSlugs | apps/web/src/server/db/schemas/workspaces_schema.ts:67 | writing a workspace whose slug no other row holds keeps slugs unique |
| WorkspacesSchema.InsertKeepsUniqueInvitations | apps/web/src/server/db/schemas/workspaces_schema.ts:184 | inserting an invitation for a (workspace, email) pair without any row, whatever its status, keeps the pair unique |
| WorkspacesSchema.PoliciesNested | apps/web/src/server/db/schemas/workspaces_schema.ts:84-96 | whoever may update a workspace row may manage its members and invitations, whoever may manage may view, and an active admin may manage but not update the row |
| WorkspaceSpec.RoleChangeKeepsAnOwner | apps/web/src/server/api/routers/workspace_router.ts:145-164 | a workspace with an active owner still has one after any role change, succeeded or refused |
| WorkspaceSpec.RemovalKeepsAnOwner | apps/web/src/server/api/routers/workspace_router.ts:195-223 | a workspace with an active owner still has one after any removal |
| WorkspaceSpec.LastOwnerIsKept | apps/web/src/server/api/routers/workspace_router.ts:145-223 | the sole active owner can be neither demoted nor removed: both calls fail FORBIDDEN with their messages and change nothing |
| WorkspaceSpec.CreatedWorkspaceIsOwned | apps/web/src/server/api/routers/workspace_router.ts:18-61 | a successful creation needs a caller, records them as creator, makes them the workspace's one active owner, returns the owner role with all permissions, and lists the workspace for them |
| WorkspaceSpec.CreateWorkspaceKeepsValid | apps/web/src/server/api/routers/workspace_router.ts:38-59 | creation keeps keys, unique slugs and memberships, foreign keys and column lengths |
| WorkspaceSpec.UpdateMemberRoleKeepsValid | apps/web/src/server/api/routers/workspace_router.ts:166-170 | a role change keeps the constraints |
| WorkspaceSpec.RemoveMemberKeepsValid | apps/web/src/server/api/routers/workspace_router.ts:214-218 | a removal keeps the constraints |
| WorkspaceSpec.UpdateWorkspaceKeepsValid | apps/web/src/server/api/routers/workspace_router.ts:272-282 | a settings update keeps the constraints |
| WorkspaceSpec.CreateInvitationKeepsValid | apps/web/src/server/api/routers/workspace_router.ts:370-384 | issuing an invitation keeps the constraints |
| WorkspaceSpec.RevokeInvitationKeepsValid | apps/web/src/server/api/routers/workspace_router.ts:393-405 | revoking keeps the constraints |
| WorkspaceSpec.AcceptInvitationKeepsValid | apps/web/src/server/api/routers/workspace_router.ts:460-504 | accepting keeps the constraints |
| WorkspaceSpec.UserWorkspacesListing | apps/web/src/server/api/routers/workspace_router.ts:72-99 | a signed-out caller is refused; otherwise the listing holds exactly the live workspaces in which the caller has an active membership, each with that membership's role |
| WorkspaceSpec.MemberListingFollowsChanges | apps/web/src/server/api/routers/workspace_router.ts:101-122 | after a role change the active member is listed with the new role and their profile's name and email; after a removal the member is no longer listed |
| WorkspaceSpec.AcceptedWorkspaceIsListed | apps/web/src/server/api/routers/workspace_router.ts:450-505 | an accepted invitation grants its role and that role's permissions, is deleted, and the workspace (unless deleted) is listed for the caller with that role |
| WorkspaceSpec.AcceptIgnoresEmailAndExpiry | apps/web/src/server/api/routers/workspace_router.ts:460-504 | for any invitation row, whatever its email, status or expiry, a signed-in caller whose membership insert is accepted succeeds |
| WorkspaceSpec.RemovedMemberCannotRejoin | apps/web/src/server/db/schemas/workspaces_schema.ts:128 | a removed member who accepts an invitation to the same workspace hits the unique pair and gets INTERNAL_SERVER_ERROR with no change |
| WorkspaceSpec.RemovedMemberIsUnlisted | apps/web/src/server/api/routers/workspace_router.ts:80-98 | after a removal the workspace disappears from the removed user's listing |
| WorkspaceSpec.InvitationLifecycle | apps/web/src/server/api/routers/workspace_router.ts:316-406 | an issued invitation is pending, carries the email and role, names the caller as inviter, expires 30 days later and is listed for the workspace; a second one for the same email is a CONFLICT; revoking it unlists it |
| WorkspaceSpec.InvitationReachesInbox | apps/web/src/server/api/routers/workspace_router.ts:408-448 | an issued invitation appears, with its workspace's id, name and slug, in the inbox of a profile with the invited email while the workspace is live, and leaves that inbox once accepted |
| WorkspaceSpec.UpdateWorkspaceGate | apps/web/src/server/api/routers/workspace_router.ts:239-251 | a caller without an active owner or admin membership is refused FORBIDDEN with the router's message and no change; an active admin passes the gate and is never refused FORBIDDEN |
| WorkspaceSpec.MissingMemberIsNotFound | apps/web/src/server/api/routers/workspace_router.ts:137-193 | updateMemberRole and removeMember on an unknown membership fail NOT_FOUND "Member not found" and change nothing |
| WorkspaceSpec.MissingInvitationIsNotFound | apps/web/src/server/api/routers/workspace_router.ts:393-480 | revokeInvitation, and acceptInvitation by a signed-in caller, on an unknown invitation fail NOT_FOUND "Invitation not found" and change nothing |
| WorkspaceSpec.InvitationConflicts | apps/web/src/server/api/routers/workspace_router.ts:333-371 | a pending invitation for the email is a CONFLICT; failing that, an active member whose profile has the email is the other CONFLICT; neither changes the tables |
| WorkspaceSpec.SettingsGateAndSlugs | apps/web/src/server/api/routers/workspace_router.ts:228-285 | an admin allowed by the router's gate updating to the slug of a live workspace gets CONFLICT; to the slug of a soft-deleted one, the unique constraint refuses the write |
| WorkspaceRouter.WorkspaceService.constructor | apps/web/src/server/db/schemas/workspaces_schema.ts:47-215 | the service starts on tables that meet the constraints |
| WorkspaceRouter.WorkspaceService.CreateWorkspace | apps/web/src/server/api/routers/workspace_router.ts:18-61 | the two inserts in one transaction perform the createWorkspace transition, rolling back the first when the second fails, and keep the constraints |
| WorkspaceRouter.WorkspaceService.UpdateMemberRole | apps/web/src/server/api/routers/workspace_router.ts:124-177 | the lookup, the owner count and the update perform the updateMemberRole transition and keep the constraints |
| WorkspaceRouter.WorkspaceService.RemoveMember | apps/web/src/server/api/routers/workspace_router.ts:179-226 | the lookup, the owner count and the soft delete perform the removeMember transition and keep the constraints |
| WorkspaceRouter.WorkspaceService.UpdateWorkspace | apps/web/src/server/api/routers/workspace_router.ts:228-285 | the gate, the slug check and the update perform the updateWorkspace transition and keep the constraints |
| WorkspaceRouter.WorkspaceService.CreateInvitation | apps/web/src/server/api/routers/workspace_router.ts:316-387 | the two conflict checks and the insert perform the createInvitation transition and keep the constraints |
| WorkspaceRouter.WorkspaceService.RevokeInvitation | apps/web/src/server/api/routers/workspace_router.ts:389-406 | the delete hands back the deleted row or fails NOT_FOUND, and keeps the constraints |
| WorkspaceRouter.WorkspaceService.AcceptInvitation | apps/web/src/server/api/routers/workspace_router.ts:450-505 | the read, the membership insert and the invitation delete, in one transaction, perform the acceptInvitation transition and keep the constraints |
| Rbac.RolePermissionsTable | apps/web/src/app/contexts/rbac-context.tsx:12-32 | owners hold all five permissions, admins all but DELETE_WORKSPACE, members only VIEW_WORKSPACE, so the three sets are strictly nested |
| Rbac.CurrentPermissions | apps/web/src/app/contexts/rbac-context.tsx:106-108 | the exposed permissions are the selected role's permissions, or none without a selection |
| Rbac.FindById | apps/web/src/app/contexts/rbac-context.tsx:87-89 | `find` by workspace id returns the first matching entry, and none exactly when no entry matches |
| Rbac.InitialSelection | apps/web/src/app/contexts/rbac-context.tsx:83-99 | the load effect selects the first entry carrying the saved workspace id (the one `find` returns) when there is one, else the first entry, and nothing when the list is empty |
| Rbac.ReplaceWorkspace | apps/web/src/app/contexts/rbac-context.tsx:128-136 | the list keeps its length, roles and permissions, and only the entries with the workspace's id get the new workspace |
| Rbac.RbacProvider.constructor | apps/web/src/app/contexts/rbac-context.tsx:55-68 | the provider starts with the initial profile and the initial list, with no selection |
| Rbac.RbacProvider.UpdateProfileContext | apps/web/src/app/contexts/rbac-context.tsx:125-127 | the profile is replaced, and the list, the selection and storage are untouched; every other method leaves the profile as it was |
| Rbac.RbacProvider.ReceiveFetched | apps/web/src/app/contexts/rbac-context.tsx:76-80 | fetched memberships replace the list, and nothing else changes |
| Rbac.RbacProvider.HandleWorkspaceChange | apps/web/src/app/contexts/rbac-context.tsx:101-104 | a change selects the entry and stores its workspace id under "lastWorkspaceId" |
| Rbac.RbacProvider.LoadLastSelected | apps/web/src/app/contexts/rbac-context.tsx:83-99 | the load effect moves to the InitialSelection choice and stores its id, or changes nothing without entries |
| Rbac.RbacProvider.SetCurrentWorkspace | apps/web/src/app/contexts/rbac-context.tsx:117-124 | a listed workspace is selected and stored; an unlisted one changes nothing |
| Rbac.RbacProvider.UpdateWorkspaceContext | apps/web/src/app/contexts/rbac-context.tsx:128-142 | the list becomes ReplaceWorkspace of it, the selection is updated only when its id matches, and storage is untouched |
| Rbac.RbacProvider.AddWorkspaceMembership | apps/web/src/app/contexts/rbac-context.tsx:143-146 | the entry is appended at the end, selected and stored |
| Rbac.AddedMembershipStaysSelected | apps/web/src/app/contexts/rbac-context.tsx:83-99 | after an entry with a new workspace id is added, the load effect that the changed list triggers selects that same entry again |
| LumonSchemas.TaskStatusNamesDistinct | apps/web/src/server/db/schemas/lumon_schemas.ts:37-40 | the status names are distinct and fit the status column's 20 characters |
| LumonSchemas.InsertedAgent | apps/web/src/server/db/schemas/lumon_schemas.ts:16-27 | a new agent's status defaults to "active" and its timestamps are now |
| LumonSchemas.InsertedTask | apps/web/src/server/db/schemas/lumon_schemas.ts:30-51 | a new task's status defaults to "assigned" and its progress to 0, with no answer, signature, completion or record id |
| LumonSpec.GetAgents | apps/web/src/server/api/routers/lumon_router.ts:261-281 | signed-in callers get every agent once, newest first; others are refused |
| LumonSpec.GetTasks | apps/web/src/server/api/routers/lumon_router.ts:192-212 | signed-in callers get every task once, newest first; others are refused |
| LumonSpec.CallersNeverSeeNotFoundOrConflict | apps/web/src/server/api/routers/lumon_router.ts:235-256 | no procedure ever answers NOT_FOUND or CONFLICT: those errors raised in a `try` come out as INTERNAL_SERVER_ERROR |
| LumonSpec.SignedOutChangesNothing | apps/web/src/server/api/routers/lumon_router.ts:193-198 | without a user every procedure fails UNAUTHORIZED and leaves the tables unchanged |
| LumonSpec.CreatedTaskIsListed | apps/web/src/server/api/routers/lumon_router.ts:648-704 | a created task belongs to an existing agent, copies the input with defaults "assigned" and 0, has a whole progress in 0..100 equal to the supplied one, and is listed among the agent's tasks |
| LumonSpec.FractionalProgressFails | apps/web/src/server/db/schemas/lumon_schemas.ts:41 | input validation admits a fractional progress such as 42.5, and the integer column then refuses it: the call fails "Failed to create task" with no change |
| LumonSpec.AllTasksMatchFilter | apps/web/src/server/api/routers/lumon_router.ts:616-636 | getAllTasks lists exactly the tasks matching every supplied filter, newest first |
| LumonSpec.AgentTasksBelongToAgent | apps/web/src/server/api/routers/lumon_router.ts:449-462 | getAgentTasks is getAllTasks filtered by the agent: only that agent's tasks, only with the requested status |
| LumonSpec.UpdateTaskStatusIsLocal | apps/web/src/server/api/routers/lumon_router.ts:576-582 | updateTaskStatus changes the target task's status and updatedAt and nothing else |
| LumonSpec.UnassignedEach | apps/web/src/server/api/routers/lumon_router.ts:403-411 | unassigning every task of the agent row by row yields the whole-table unassignment |
| LumonSpec.DeleteAgentAsWrittenKeepsBusyAgents | apps/web/src/server/api/routers/lumon_router.ts:403-411 | as written, deleting an agent with a task fails INTERNAL_SERVER_ERROR and leaves the agent and the task's agent in place |
| LumonSpec.DeleteAgentAsWrittenExample | apps/web/src/server/db/schemas/lumon_schemas.ts:34-36 | one agent with one task: the call as written fails, and the corrected one succeeds |
| LumonSpec.DeleteAgentUnassignsTasks | apps/web/src/server/api/routers/lumon_router.ts:398-419 | the corrected deleteAgent removes the agent, unassigns exactly its tasks, keeps every other task and agent, and keeps the constraints |
| LumonSpec.CreateAgentKeepsValid | apps/web/src/server/api/routers/lumon_router.ts:215-258 | creating an agent keeps keys, unique wallets and column lengths |
| LumonSpec.GetAgentCases | apps/web/src/server/api/routers/lumon_router.ts:284-315 | a signed-in caller gets exactly the agent row with the id; an unknown id comes back as INTERNAL_SERVER_ERROR "Failed to fetch agent"; a signed-out caller is refused; the call succeeds exactly when signed in and the id exists |
| LumonSpec.UpdateAgentIsLocal | apps/web/src/server/api/routers/lumon_router.ts:318-367 | a successful update writes the name, the supplied description (else the old one), the status and updatedAt of that one agent, keeps its id, wallet and creation time, and leaves every other agent, task and submission alone; an unknown id fails "Failed to update agent" |
| LumonSpec.UpdateAgentKeepsValid | apps/web/src/server/api/routers/lumon_router.ts:318-367 | updating an agent keeps the constraints |
| LumonSpec.TaskMutationsKeepValid | apps/web/src/server/api/routers/lumon_router.ts:549-704 | creating a task and updating its status keep the constraints |
| LumonRouter.LumonService.constructor | apps/web/src/server/db/schemas/lumon_schemas.ts:16-62 | the service starts on tables that meet the constraints |
| LumonRouter.LumonService.CreateAgent | apps/web/src/server/api/routers/lumon_router.ts:215-258 | the wallet call and the insert perform the createAgent transition and keep the constraints |
| LumonRouter.LumonService.UpdateAgent | apps/web/src/server/api/routers/lumon_router.ts:318-367 | the update performs the updateAgent transition and keeps the constraints |
| LumonRouter.LumonService.CreateTask | apps/web/src/server/api/routers/lumon_router.ts:648-704 | the agent check and the insert perform the createTask transition and keep the constraints |
| LumonRouter.LumonService.UpdateTaskStatus | apps/web/src/server/api/routers/lumon_router.ts:549-593 | the update performs the updateTaskStatus transition and keeps the constraints |
| LumonRouter.LumonService.DeleteAgent | apps/web/src/server/api/routers/lumon_router.ts:397-419 | the loop unassigns the agent's tasks one at a time, then the agent is deleted: the corrected deleteAgent transition, keeping the constraints |
| ChatsSpec.ChatTitle | apps/web/src/server/api/routers/chats_router.ts:28-34 | the stored title is the supplied non-empty title, else "New Chat" |
| ChatsSpec.GetChatById | apps/web/src/server/api/routers/chats_router.ts:40-76 | an owned chat comes with exactly its messages, oldest first |
| ChatsSpec.GetUserChats | apps/web/src/server/api/routers/chats_router.ts:79-88 | the caller's chats, each once, most recently updated first |
| ChatsSpec.WithBatchContents | apps/web/src/server/api/routers/chats_router.ts:172-182 | the multi-row insert stores every batch row under its id and leaves every other row as it was |
| ChatsSpec.SaveMessagesReplaces | apps/web/src/server/api/routers/chats_router.ts:164-189 | on an owned chat the chat's messages become exactly the batch, other chats' messages are untouched, and the chat is complete and updated now |
| ChatsSpec.SaveMessagesFailureLosesMessages | apps/web/src/server/api/routers/chats_router.ts:164-182 | when the insert fails, the delete is not undone: the chat is left with no messages |
| ChatsSpec.AddMessageAppends | apps/web/src/server/api/routers/chats_router.ts:228-243 | addMessage adds exactly one new message to the chat and leaves every existing one untouched |
| ChatsSpec.UpdateChatStatusWritesBeforeCheck | apps/web/src/server/api/routers/chats_router.ts:101-122 | on another user's chat the call fails FORBIDDEN, yet that chat has the new status |
| ChatsSpec.CreatedChatIsOwned | apps/web/src/server/api/routers/chats_router.ts:10-76 | a created chat has the resolved title, is listed for its creator, is readable by them and FORBIDDEN to others |
| ChatsSpec.ChatUpdatesKeepValid | apps/web/src/server/db/schemas/chats_schemas.ts:6-30 | createChat, updateChatStatus and addMessage keep keys, column lengths and the messages' chat references |
| ChatsSpec.SaveMessagesKeepsValid | apps/web/src/server/db/schemas/chats_schemas.ts:22-30 | saveMessages keeps the constraints, on success and on failure |
| ChatsRouter.ChatService.constructor | apps/web/src/server/db/schemas/chats_schemas.ts:6-30 | the service starts on tables that meet the constraints |
| ChatsRouter.ChatService.CreateChat | apps/web/src/server/api/routers/chats_router.ts:10-37 | the insert performs the createChat transition and keeps the constraints |
| ChatsRouter.ChatService.UpdateChatStatus | apps/web/src/server/api/routers/chats_router.ts:91-125 | the write and then the ownership check perform the updateChatStatus transition |
| ChatsRouter.ChatService.SaveMessages | apps/web/src/server/api/routers/chats_router.ts:128-192 | the delete, the insert and the chat update, run one after another, perform the saveMessages transition |
| ChatsRouter.ChatService.AddMessage | apps/web/src/server/api/routers/chats_router.ts:195-246 | the insert and the chat update perform the addMessage transition |
| ProfileSpec.GetProfile | apps/web/src/server/api/routers/profile_router.ts:27-36 | the row with the id, deleted or not, or NOT_FOUND exactly when there is none |
| ProfileSpec.InitialName | apps/web/src/server/api/routers/profile_router.ts:137 | the initial name is the email's longest prefix without "@", and the whole email when there is no "@" |
| ProfileSpec.InitialNameIsLocalPart | apps/web/src/server/api/routers/profile_router.ts:137 | the initial name is the email up to its first "@" |
| ProfileSpec.InitialNameExample | apps/web/src/server/api/routers/profile_router.ts:137 | "ada@example.com" gives the name "ada" |
| ProfileSpec.CreatedProfileIsReadable | apps/web/src/server/api/routers/profile_router.ts:104-142 | a created profile carries the email, the local-part name and the member role, is readable, and a second creation for that user is a CONFLICT |
| ProfileSpec.UpdateWritesSuppliedColumns | apps/web/src/server/api/routers/profile_router.ts:50-56 | an update writes exactly the supplied columns, refreshes updatedAt unless it is supplied, and returns nothing when no row matches |
| ProfileSpec.DeletedProfileIsHidden | apps/web/src/server/api/routers/profile_router.ts:70-101 | a deleted profile has its deletion time, leaves the default listing, stays in the listing with deleted rows, and stays readable |
| ProfileSpec.ListingContents | apps/web/src/server/api/routers/profile_router.ts:94-101 | the listing holds exactly the rows not soft-deleted, or all rows with includeDeleted, newest first |
| ProfileSpec.UpdateProfileKeepsValid | apps/web/src/server/db/schemas/profiles_schema.ts:23-44 | an update keeps keys, unique emails and column lengths |
| ProfileSpec.DeleteProfileKeepsValid | apps/web/src/server/db/schemas/profiles_schema.ts:23-44 | a soft delete keeps the constraints |
| ProfileSpec.CreateInitialProfileKeepsValid | apps/web/src/server/db/schemas/profiles_schema.ts:23-44 | creating the initial profile keeps the constraints |
| ProfileRouter.ProfileService.constructor | apps/web/src/server/db/schemas/profiles_schema.ts:23-44 | the service starts on a table that meets the constraints |
| ProfileRouter.ProfileService.UpdateProfile | apps/web/src/server/api/routers/profile_router.ts:40-57 | the update performs the updateProfile transition and keeps the constraints |
| ProfileRouter.ProfileService.DeleteProfile | apps/web/src/server/api/routers/profile_router.ts:60-76 | the soft delete performs the deleteProfile transition |
| ProfileRouter.ProfileService.CreateInitialProfile | apps/web/src/server/api/routers/profile_router.ts:104-142 | the checks and the insert perform the createInitialProfile transition and keep the constraints |
| SessionMiddleware.RouteTable | apps/web/src/app/utils/supabase/middleware.ts:7-87 | the OAuth callback with a code bypasses everything; signed-out visitors go to the login page unless on "/", "/team" or a path starting with "/auth"; signed-in visitors on "/" or such a path go to the dashboard; everyone else passes |
| SessionMiddleware.RedirectsSettle | apps/web/src/app/utils/supabase/middleware.ts:59-72 | following a redirect never leads to a second one |
| SessionMiddleware.AuthPrefixIsLoose | apps/web/src/app/utils/supabase/middleware.ts:59 | the prefix test lets a signed-out visitor reach "/authors", while "/lumon/dashboard" is redirected |
| GoogleAuthSpec.RefreshFailures | apps/web/src/app/auth/_actions/google-auth-actions.ts:53-144 | no user and no refresh token (given or stored) are the first failures; Google's thrown message or error description (else "Failed to refresh token") is passed on; a failure writes nothing |
| GoogleAuthSpec.RefreshWritesExpiry | apps/web/src/app/auth/_actions/google-auth-actions.ts:107-122 | a successful refresh expires at now plus `expires_in` seconds (an hour by default) and writes that expiry and the new access token into the caller's Google row only, keeping its refresh token |
| GoogleAuthSpec.EnsureFreshTokenCases | apps/web/src/app/auth/_actions/google-auth-actions.ts:149-192 | no user and no stored row are failures; a row that is fresh for more than five minutes is returned unchanged; a stale one is refreshed with its stored refresh token |
| GoogleAuthSpec.StaleRowRefreshesAsWithoutArgument | apps/web/src/app/auth/_actions/google-auth-actions.ts:185 | refreshing a stale row with its stored refresh token is the same as refreshing without an argument |
| GoogleAuthSpec.RefreshedRowIsFresh | apps/web/src/app/auth/_actions/google-auth-actions.ts:176-185 | after a successful ensureFreshToken, a later call before the new expiry minus the buffer reuses the token without calling Google |
| GoogleAuth.OAuthTokenStore.constructor | apps/web/src/server/db/schemas/oauth_tokens_schema.ts:15-40 | the store starts on the given rows |
| GoogleAuth.OAuthTokenStore.RefreshGoogleToken | apps/web/src/app/auth/_actions/google-auth-actions.ts:53-144 | the lookup, the exchange and the row update perform the refreshGoogleToken transition |
| GoogleAuth.OAuthTokenStore.EnsureFreshToken | apps/web/src/app/auth/_actions/google-auth-actions.ts:149-192 | the freshness test and the delegation perform the ensureFreshToken transition |
| TokenCacheSpec.RefreshOutcomes | apps/web/src/app/utils/auth-token-manager.ts:98-132 | only Google is refreshed, and a failed refresh changes nothing; a successful one replaces the access token, keeps the cached refresh token, takes the server's expiry (else now plus 3500 s) and stores only the access token |
| TokenCacheSpec.ServedTokenIsCached | apps/web/src/app/utils/auth-token-manager.ts:32-96 | a returned token is non-empty and cached under the provider; when nothing is returned, nothing changed |
| TokenCacheSpec.ProviderTokenSources | apps/web/src/app/utils/auth-token-manager.ts:34-93 | the sources are tried in order: a valid cached token, a refresh when a refresh token is held, storage, and the session; tokens adopted from storage or the session expire at now plus 3500 s |
| TokenCacheSpec.RepeatedCallIsServedFromCache | apps/web/src/app/utils/auth-token-manager.ts:34-40 | once a token is served, asking again before it expires returns it from the cache, whatever the server or session would say |
| TokenCacheSpec.ClearForgetsTokens | apps/web/src/app/utils/auth-token-manager.ts:134-140 | clearing empties the cache and removes both storage keys and nothing else; afterwards only the session can supply a token |
| TokenCacheSpec.ServerRefreshIsAdopted | apps/web/src/app/utils/auth-token-manager.ts:114-125 | a refresh the server grants is cached with the expiry the server computed from Google's `expires_in` |
| AuthTokenManager.TokenManager.constructor | apps/web/src/app/utils/auth-token-manager.ts:13-30 | a stored access token is loaded as Google's token with the stored refresh token and expiry now plus 3500 s |
| AuthTokenManager.TokenManager.GetProviderToken | apps/web/src/app/utils/auth-token-manager.ts:32-96 | the method performs the getProviderToken transition on the cache and storage |
| AuthTokenManager.TokenManager.RefreshToken | apps/web/src/app/utils/auth-token-manager.ts:98-132 | the method performs the refreshToken transition |
| AuthTokenManager.TokenManager.ClearTokens | apps/web/src/app/utils/auth-token-manager.ts:134-140 | the method performs the clearTokens transition |
| MembersTable.NoOwners | apps/web/src/app/lumon/workspace/settings/_components/members-table.tsx:77-79 | the owner count is zero exactly when no loaded member is an owner |
| MembersTable.SingleOwner | apps/web/src/app/lumon/workspace/settings/_components/members-table.tsx:77-79 | the owner count is one exactly when a single loaded row is an owner |
| MembersTable.LastOwnerIsTheOnlyOwner | apps/web/src/app/lumon/workspace/settings/_components/members-table.tsx:96 | a member is the last owner exactly when it is the only loaded owner row |
| MembersTable.CellsFollowPermissionAndGuard | apps/web/src/app/lumon/workspace/settings/_components/members-table.tsx:93-147 | without MANAGE_MEMBERS the role is plain text and there is no remove button; with it the select offers all three roles, and both controls are disabled exactly for the last owner |
| MembersTable.LoadedOwnersAreActive | apps/web/src/app/lumon/workspace/settings/_components/members-table.tsx:77-79 | every loaded owner row is an active owner row of the workspace on the server |
| MembersTable.CountNeverExceedsServer | apps/web/src/app/lumon/workspace/settings/_components/members-table.tsx:77-79 | the table never counts more owners than the server's guard |
| MembersTable.OwnerRowCounts | apps/web/src/app/lumon/workspace/settings/_components/members-table.tsx:77-79 | a table with an owner row counts at least one owner |
| MembersTable.EnabledRemovalIsAccepted | apps/web/src/app/lumon/workspace/settings/_components/members-table.tsx:137-142 | an enabled remove button is never refused by the server |
| MembersTable.EnabledRoleChangeIsAccepted | apps/web/src/app/lumon/workspace/settings/_components/members-table.tsx:102-111 | an enabled role select never leads to a refused role change |
| SettingsPage.AuthorizedIsOrderedFilter | apps/web/src/app/lumon/workspace/settings/page.tsx:47-49 | the authorized sections are exactly those whose permission is held, in their original order |
| SettingsPage.SectionsByRole | apps/web/src/app/lumon/workspace/settings/page.tsx:15-33 | owners and admins get all three sections, members none |
| SettingsPage.AtMostOneBody | apps/web/src/app/lumon/workspace/settings/page.tsx:70-75 | with distinct ids at most one section body is rendered, the one whose id is active |
| SettingsPage.AuthorizedKeepsDistinctIds | apps/web/src/app/lumon/workspace/settings/page.tsx:47-49 | filtering keeps the section ids distinct |
| SettingsPage.RenderShowsOneSection | apps/web/src/app/lumon/workspace/settings/page.tsx:43-75 | without a workspace only the placeholder is shown; otherwise one navigation button per authorized section, in order and highlighted exactly when active, and at most one body, the authorized section whose id is active |
| SettingsPage.OneButtonEach | apps/web/src/app/lumon/workspace/settings/page.tsx:57-66 | the navigation has one button per section, in order, highlighted exactly for the active id |
| SettingsPage.OpeningPage | apps/web/src/app/lumon/workspace/settings/page.tsx:12 | on opening, owners and admins see the members section and members see no body |
| InvitationsTable.WithoutOwnerFilters | apps/web/src/app/lumon/workspace/settings/_components/invitations-table.tsx:211-213 | the filter keeps exactly the roles other than owner |
| InvitationsTable.InviteRoles | apps/web/src/app/lumon/workspace/settings/_components/invitations-table.tsx:55 | the form offers admin and member in that order, never owner, and starts on member |
| InvitationsTable.InviterShown | apps/web/src/app/lumon/workspace/settings/_components/invitations-table.tsx:110-114 | the inviter is shown by name, else email, else "Unknown" |
| InvitationsTable.ControlsByRole | apps/web/src/app/lumon/workspace/settings/_components/invitations-table.tsx:131-225 | owners and admins get the revoke button and the form, members neither; Send is disabled exactly while the email is empty or a send is pending |
| InvitationsTable.SendNeverRequestsOwner | apps/web/src/app/lumon/workspace/settings/_components/invitations-table.tsx:148-156 | a request is sent only with a selected workspace, carries the form's email and role, and is never refused for its role |
| NavUser.DisplayNameCases | apps/web/src/app/lumon/_components/sidebar/nav-user.tsx:51-55 | the display name is the name when non-empty, else the email's local part, else "User" |
| NavUser.NameInitials | apps/web/src/app/lumon/_components/sidebar/nav-user.tsx:58-65 | name initials are the upper-cased first characters of the first two non-empty space-separated pieces, in their order (fewer when there are fewer pieces) |
| NavUser.InitialsFollowDisplayName | apps/web/src/app/lumon/_components/sidebar/nav-user.tsx:57-70 | the initials throw only for an email with an empty local part, are "X" with neither a name nor an email, and otherwise, when the display name does not begin with a space, begin with its upper-cased first character |

## Where the model follows the code

- updateWorkspace admits an active admin (`workspace_router.ts:239-251`), while the
  table's row policy lets only owners update the row. The router's own connection is not
  bound by that policy, so the model lets admins through
  (`WorkspaceSpec.SettingsGateAndSlugs`, `WorkspacesSchema.PoliciesNested`).
- acceptInvitation checks neither the invitee's email nor the expiry, nor that the
  status is still pending (`WorkspaceSpec.AcceptIgnoresEmailAndExpiry`).
- drizzle's `$onUpdateFn` refreshes `updatedAt` on every update. So removeMember and
  deleteProfile set `updatedAt` along with `deletedAt`; they do not set only `deletedAt`.
- `getInitials` throws a TypeError when the email's local part is empty. The model
  returns `None` for that case (`NavUser.Initials`).
- getUserWorkspaces returns each workspace row spread together with the caller's role,
  so the membership role replaces the workspace row's own `role` column
  (`workspace_router.ts:95-98`), and that column is lost. The model keeps the row and
  the membership role side by side in `UserWorkspace(workspace, role)`, so it does not
  show the loss.
- updateChatStatus writes before it checks ownership, and saveMessages keeps its
  delete when the insert fails. Both are modelled as written.

## Left out

- The `authenticatedProcedure` middleware and the `ctx.db` availability checks. The
  caller's id is a parameter of each procedure, and the database is always there.
- zod's format checks on uuids and emails. Ids and emails are plain strings; only the
  checks that decide a branch (non-empty strings, enum values, the progress range) are
  modelled. So a malformed email that the server refuses as BAD_REQUEST is accepted by
  the model.
- The ordering of rows with equal sort keys: listings are modelled as ordered, but ties
  come in an unspecified order.
- getWorkspaces and the joins that decorate listings with agent names or member
  details beyond the columns modelled here.
- Privy wallet creation: the new address is a parameter of createAgent. Nillion
  SecretVault, the LLM procedures, submitTaskAnswer and the schema procedures call
  vendor SDKs with no visible semantics.
- The HTTP exchange with Google's token endpoint (the refresh-token grant of section 6
  of RFC 6749) is a parameter. The cookie writes of refreshGoogleToken and the Supabase
  session I/O are not modelled.
- Rbac.RbacProvider.ReceiveFetched: the fetched list is assumed to be already nested as
  `{workspace, role, permissions}` entries. getUserWorkspaces actually sends flat
  `{...workspace, role}` objects (`workspace_router.ts:95-98`), which have no `workspace`
  and no `permissions` field. With those, the load effect's `m.workspace.id` (and
  `membership.workspace.id` in handleWorkspaceChange) would throw a TypeError on any
  non-empty list. That path is not modelled.
- The cookie adapter of the session middleware. Only its redirect decision is modelled.
- TokenManager's `typeof window` checks: the model assumes it runs in a browser, where
  localStorage exists.
- Concurrency and transaction isolation, including the count-then-act race in the
  last-owner guard. Each procedure is one atomic step.
- Dates: times are natural-number milliseconds on one clock, and `setSeconds` becomes
  addition.
- Unicode: upper-casing is modelled on ASCII letters only, and strings are sequences of
  characters, not UTF-16 code units.
- The invitations form clearing its email after a successful send, and the UI's toasts
  and loading states.
- Row-level security policies are predicates with lemmas about them. The routers'
  connection does not go through them, so no operation checks them.
- LumonSpec.Valid: the task's agent column is treated as nullable, which the corrected
  deleteAgent needs; the NOT NULL column as written is modelled by
  `LumonSpec.DeleteAgentAsWritten`.

## Findings

| source | as written | input that shows it | evidently intended | confidence | as-written member | corrected member |
|---|---|---|---|---|---|---|
| apps/web/src/server/api/routers/lumon_router.ts:403-411 | deleteAgent writes `agentId: null` into each of the agent's tasks, but `lumon_tasks.agent_id` is NOT NULL (lumon_schemas.ts:34-36). The first update throws, and the call fails with "Failed to delete agent". | an agent "a1" with one task assigned to it; deleteAgent({agentId: "a1"}) | the agent's tasks become unassigned and the agent is deleted | not executed; high, given the schema as declared | LumonSpec.DeleteAgentAsWrittenKeepsBusyAgents | LumonSpec.DeleteAgentUnassignsTasks |
