/** The workspace settings page: its three sections, each behind one permission, the
    filter that keeps the sections the selected role may use, and which section body is
    rendered. */
module SettingsPage {
  import opened Common
  import opened WorkspacesSchema
  import Rbac

  datatype Section = Section(id: string, caption: string, permission: Rbac.Permission)

  const MembersSection: Section := Section("members", "Members", Rbac.ManageMembers)
  const InvitationsSection: Section := Section("invitations", "Invitations", Rbac.InviteMembers)
  const GeneralSection: Section := Section("general", "General Settings", Rbac.EditWorkspace)

  const Sections: seq<Section> := [MembersSection, InvitationsSection, GeneralSection]

  /** The section shown when the page opens. */
  const DefaultSection: string := "members"

  const NoWorkspaceMessage: string := "Please select a workspace to view settings."

  /** `sections.filter((s) => permissions.includes(s.permission))`. */
  function Authorized(sections: seq<Section>, permissions: seq<Rbac.Permission>): seq<Section>
  {
    if sections == [] then []
    else if sections[0].permission in permissions then [sections[0]] + Authorized(sections[1..], permissions)
    else Authorized(sections[1..], permissions)
  }

  /** A navigation button, highlighted when it is the active section. */
  datatype NavButton = NavButton(section: Section, highlighted: bool)

  datatype Page =
    | Placeholder(message: string)
    | Settings(navigation: seq<NavButton>, shown: seq<Section>)

  function Buttons(sections: seq<Section>, active: string): seq<NavButton>
  {
    if sections == [] then [] else [NavButton(sections[0], sections[0].id == active)] + Buttons(sections[1..], active)
  }

  /** `authorizedSections.map((s) => active === s.id && <s.component/>)`. */
  function Bodies(sections: seq<Section>, active: string): seq<Section>
  {
    if sections == [] then []
    else (if sections[0].id == active then [sections[0]] else []) + Bodies(sections[1..], active)
  }

  function Render(hasWorkspace: bool, permissions: seq<Rbac.Permission>, active: string): Page
  {
    if !hasWorkspace then Placeholder(NoWorkspaceMessage)
    else
      var authorized := Authorized(Sections, permissions);
      Settings(Buttons(authorized, active), Bodies(authorized, active))
  }

  /** The filter keeps exactly the sections whose permission is held, and keeps them in
      their original order. */
  lemma {:induction false} AuthorizedIsOrderedFilter(sections: seq<Section>, permissions: seq<Rbac.Permission>)
    ensures forall s :: s in Authorized(sections, permissions) <==> s in sections && s.permission in permissions
    ensures |Authorized(sections, permissions)| <= |sections|
    ensures (forall s :: s in sections ==> s.permission in permissions) ==> Authorized(sections, permissions) == sections
    ensures (forall s :: s in sections ==> s.permission !in permissions) ==> Authorized(sections, permissions) == []
  {
    if sections != [] {
      AuthorizedIsOrderedFilter(sections[1..], permissions);
      assert forall s :: s in sections <==> s == sections[0] || s in sections[1..];
      if forall s :: s in sections ==> s.permission in permissions {
        assert sections == [sections[0]] + sections[1..];
      }
    }
  }

  /** What each role sees: owners and admins get all three sections, members none. */
  lemma SectionsByRole()
    ensures Authorized(Sections, Rbac.RolePermissions(Owner)) == Sections
    ensures Authorized(Sections, Rbac.RolePermissions(Admin)) == Sections
    ensures Authorized(Sections, Rbac.RolePermissions(Member)) == []
  {
    Rbac.RolePermissionsTable();
    AuthorizedIsOrderedFilter(Sections, Rbac.RolePermissions(Owner));
    AuthorizedIsOrderedFilter(Sections, Rbac.RolePermissions(Admin));
    AuthorizedIsOrderedFilter(Sections, Rbac.RolePermissions(Member));
  }

  /** Section ids are distinct, so at most one body matches the active id. */
  lemma {:induction false} AtMostOneBody(sections: seq<Section>, active: string)
    requires forall i, j :: 0 <= i < j < |sections| ==> sections[i].id != sections[j].id
    ensures |Bodies(sections, active)| <= 1
    ensures forall s :: s in Bodies(sections, active) <==> s in sections && s.id == active
    ensures (forall s :: s in sections ==> s.id != active) ==> Bodies(sections, active) == []
  {
    if sections != [] {
      var rest := sections[1..];
      assert forall i :: 1 <= i < |sections| ==> sections[i] == rest[i - 1];
      AtMostOneBody(rest, active);
      if sections[0].id == active {
        assert forall s :: s in rest ==> s.id != active;
      }
    }
  }

  lemma {:induction false} AuthorizedKeepsDistinctIds(sections: seq<Section>, permissions: seq<Rbac.Permission>)
    requires forall i, j :: 0 <= i < j < |sections| ==> sections[i].id != sections[j].id
    ensures var a := Authorized(sections, permissions);
      forall i, j :: 0 <= i < j < |a| ==> a[i].id != a[j].id
  {
    if sections != [] {
      var rest := sections[1..];
      assert forall i :: 1 <= i < |sections| ==> sections[i] == rest[i - 1];
      AuthorizedKeepsDistinctIds(rest, permissions);
      AuthorizedIsOrderedFilter(rest, permissions);
      var a := Authorized(sections, permissions);
      if sections[0].permission in permissions {
        forall j | 0 < j < |a| ensures a[0].id != a[j].id {
          assert a[j] in Authorized(rest, permissions);
        }
      }
    }
  }

  /** The page: without a workspace only the placeholder; otherwise one button per
      authorized section and at most one body, the authorized section whose id is the
      active one. */
  lemma RenderShowsOneSection(hasWorkspace: bool, permissions: seq<Rbac.Permission>, active: string)
    ensures !hasWorkspace ==> Render(hasWorkspace, permissions, active) == Placeholder(NoWorkspaceMessage)
    ensures hasWorkspace ==>
      var page := Render(hasWorkspace, permissions, active);
      && page.Settings?
      && |page.navigation| == |Authorized(Sections, permissions)|
      && (forall i :: 0 <= i < |page.navigation| ==>
            page.navigation[i].section == Authorized(Sections, permissions)[i]
            && (page.navigation[i].highlighted <==> Authorized(Sections, permissions)[i].id == active))
      && |page.shown| <= 1
      && (forall s :: s in page.shown <==> s in Sections && s.permission in permissions && s.id == active)
  {
    if hasWorkspace {
      var authorized := Authorized(Sections, permissions);
      AuthorizedIsOrderedFilter(Sections, permissions);
      AuthorizedKeepsDistinctIds(Sections, permissions);
      AtMostOneBody(authorized, active);
      OneButtonEach(authorized, active);
    }
  }

  /** One button per section, in order, highlighted exactly for the active id. */
  lemma {:induction false} OneButtonEach(sections: seq<Section>, active: string)
    ensures |Buttons(sections, active)| == |sections|
    ensures forall i :: 0 <= i < |sections| ==>
      Buttons(sections, active)[i] == NavButton(sections[i], sections[i].id == active)
  {
    if sections != [] {
      OneButtonEach(sections[1..], active);
    }
  }

  /** On opening, an owner or admin sees the members section; a member sees no body. */
  lemma OpeningPage(role: Role)
    ensures var page := Render(true, Rbac.RolePermissions(role), DefaultSection);
      page.Settings? && page.shown == (if role == Member then [] else [MembersSection])
  {
    SectionsByRole();
    RenderShowsOneSection(true, Rbac.RolePermissions(role), DefaultSection);
    var page := Render(true, Rbac.RolePermissions(role), DefaultSection);
    if role == Member {
      assert page.shown == Bodies([], DefaultSection);
    } else {
      Rbac.RolePermissionsTable();
      assert MembersSection in page.shown;
      assert page.shown == [page.shown[0]];
    }
  }
}
