/** The profile router's procedures as transitions of the `profiles` table. */
module ProfileSpec {
  import opened Common
  import opened ProfilesSchema

  const ProfileNameMaxLength: nat := 100
  const ProfileEmailMaxLength: nat := 255
  const ProfileRoleMaxLength: nat := 20
  const DefaultProfileRole: string := "member"

  type Profiles = map<Uuid, Profile>

  datatype Step<T> = Step(profiles: Profiles, result: Result<T>)

  predicate ProfileRowOk(p: Profile)
  {
    && (p.name.Some? ==> |p.name.value| <= ProfileNameMaxLength)
    && (p.email.Some? ==> |p.email.value| <= ProfileEmailMaxLength)
    && |p.role| <= ProfileRoleMaxLength
  }

  ghost predicate Valid(ps: Profiles)
  {
    && (forall id :: id in ps ==> ps[id].id == id && ProfileRowOk(ps[id]))
    && UniqueEmails(ps)
  }

  const DatabaseError: string := "database constraint violated"

  // ---- getProfile ----

  /** The row with the id, soft-deleted or not. */
  function GetProfile(ps: Profiles, id: Uuid): (r: Result<Profile>)
    ensures r.Ok? <==> id in ps
    ensures r.Ok? ==> r.value == ps[id]
    ensures r.Err? ==> r.error == Error(NotFound, "Profile not found")
  {
    if id !in ps then Err(Error(NotFound, "Profile not found")) else Ok(ps[id])
  }

  // ---- updateProfile ----

  /** The supplied columns: an outer `None` leaves the column alone, `Some(None)` writes null. */
  datatype ProfilePatch = ProfilePatch(
    name: Option<Option<string>>,
    avatarUrl: Option<Option<string>>,
    username: Option<Option<string>>,
    email: Option<Option<string>>,
    role: Option<string>,
    createdAt: Option<nat>,
    updatedAt: Option<nat>,
    deletedAt: Option<Option<nat>>)

  predicate EmptyPatch(patch: ProfilePatch)
  {
    && patch.name.None? && patch.avatarUrl.None? && patch.username.None? && patch.email.None?
    && patch.role.None? && patch.createdAt.None? && patch.updatedAt.None? && patch.deletedAt.None?
  }

  function Pick<T>(supplied: Option<T>, current: T): T
  {
    if supplied.Some? then supplied.value else current
  }

  /** The row after the update; updatedAt is refreshed unless the patch sets it. */
  function Patched(p: Profile, patch: ProfilePatch, now: nat): Profile
  {
    Profile(p.id, Pick(patch.name, p.name), Pick(patch.avatarUrl, p.avatarUrl), Pick(patch.username, p.username),
            Pick(patch.email, p.email), Pick(patch.role, p.role), Pick(patch.createdAt, p.createdAt),
            Pick(patch.updatedAt, now), Pick(patch.deletedAt, p.deletedAt))
  }

  /** Write the supplied columns; no row matches → nothing is returned. An empty patch
      makes the query builder throw. */
  function UpdateProfile(ps: Profiles, id: Uuid, patch: ProfilePatch, now: nat): Step<Option<Profile>>
  {
    if EmptyPatch(patch) then Step(ps, Err(Error(InternalServerError, "No values to set")))
    else if id !in ps then Step(ps, Ok(None))
    else
      var p' := Patched(ps[id], patch, now);
      if !ProfileRowOk(p') || (p'.email.Some? && EmailHeld(ps, p'.email.value, id)) then
        Step(ps, Err(Error(InternalServerError, DatabaseError)))
      else Step(ps[id := p'], Ok(Some(p')))
  }

  // ---- deleteProfile ----

  /** Soft delete: set deletedAt (updatedAt is refreshed with it). */
  function DeleteProfile(ps: Profiles, id: Uuid, now: nat): Step<Option<Profile>>
  {
    if id !in ps then Step(ps, Ok(None))
    else
      var p' := ps[id].(deletedAt := Some(now), updatedAt := now);
      Step(ps[id := p'], Ok(Some(p')))
  }

  // ---- listProfiles ----

  ghost function ProfileCreated(p: Profile): int { p.createdAt }

  function Listed(ps: Profiles, includeDeleted: bool): set<Profile>
  {
    set id | id in ps && (includeDeleted || ps[id].deletedAt.None?) :: ps[id]
  }

  /** Every row, or only the rows not soft-deleted (the default), newest first. */
  ghost function ListProfiles(ps: Profiles, includeDeleted: Option<bool>): seq<Profile>
  {
    SortBy(Listed(ps, includeDeleted == Some(true)), ProfileCreated, true)
  }

  // ---- createInitialProfile ----

  /** The initial display name: the email's local part. */
  function InitialName(email: string): (r: string)
    ensures '@' !in r
    ensures StartsWith(email, r)
    ensures |r| < |email| ==> email[|r|] == '@'
    ensures '@' !in email ==> r == email
  {
    BeforeFirst(email, '@')
  }

  function InitialProfile(id: Uuid, email: string, now: nat): Profile
  {
    Profile(id, Some(InitialName(email)), None, None, Some(email), DefaultProfileRole, now, now, None)
  }

  /** Insert the caller's profile, named after the local part of their email. */
  function CreateInitialProfile(ps: Profiles, userId: Option<Uuid>, email: Option<string>, now: nat): Step<Profile>
  {
    if !Truthy(userId) || !Truthy(email) then Step(ps, Err(Error(Unauthorized, "User must be authenticated with email")))
    else if userId.value in ps then Step(ps, Err(Error(Conflict, "Profile already exists")))
    else
      var p := InitialProfile(userId.value, email.value, now);
      if !ProfileRowOk(p) || EmailHeld(ps, email.value, userId.value) then
        Step(ps, Err(Error(InternalServerError, DatabaseError)))
      else Step(ps[userId.value := p], Ok(p))
  }

  // ---- Properties ----

  /** A created profile carries the email and its local part as name, is readable, and a
      second creation for the same user is a CONFLICT. */
  lemma CreatedProfileIsReadable(ps: Profiles, userId: Option<Uuid>, email: Option<string>, now: nat, later: nat,
                                 email2: Option<string>)
    requires CreateInitialProfile(ps, userId, email, now).result.Ok?
    requires Truthy(email2)
    ensures var s := CreateInitialProfile(ps, userId, email, now);
      && s.result.value.email == email
      && s.result.value.name == Some(InitialName(email.value))
      && s.result.value.role == DefaultProfileRole && s.result.value.deletedAt.None?
      && GetProfile(s.profiles, userId.value) == Ok(s.result.value)
      && CreateInitialProfile(s.profiles, userId, email2, later) == Step(s.profiles, Err(Error(Conflict, "Profile already exists")))
  {
  }

  /** The initial name is the longest prefix without '@'. */
  lemma InitialNameIsLocalPart(email: string, k: nat)
    requires k <= |email| && '@' !in email[..k] && (k < |email| ==> email[k] == '@')
    ensures InitialName(email) == email[..k]
  {
  }

  /** The name that an email such as "ada@example.com" gives. */
  lemma InitialNameExample()
    ensures InitialName("ada@example.com") == "ada"
  {
    var e := "ada@example.com";
    assert e[..3] == "ada";
    InitialNameIsLocalPart(e, 3);
  }

  /** An update writes exactly the supplied columns and keeps the others. */
  lemma UpdateWritesSuppliedColumns(ps: Profiles, id: Uuid, patch: ProfilePatch, now: nat)
    requires UpdateProfile(ps, id, patch, now).result.Ok?
    ensures var s := UpdateProfile(ps, id, patch, now);
      && (id !in ps <==> s.result.value.None?)
      && (s.result.value.Some? ==>
            var p := ps[id]; var p' := s.result.value.value;
            && s.profiles == ps[id := p']
            && p'.id == p.id
            && (if patch.name.Some? then p'.name == patch.name.value else p'.name == p.name)
            && (if patch.email.Some? then p'.email == patch.email.value else p'.email == p.email)
            && (if patch.role.Some? then p'.role == patch.role.value else p'.role == p.role)
            && (if patch.deletedAt.Some? then p'.deletedAt == patch.deletedAt.value else p'.deletedAt == p.deletedAt)
            && (if patch.updatedAt.Some? then p'.updatedAt == patch.updatedAt.value else p'.updatedAt == now))
      && (s.result.value.None? ==> s.profiles == ps)
  {
  }

  /** A soft-deleted profile leaves the default listing but is still readable and still
      listed when deleted rows are asked for. */
  lemma {:induction false} DeletedProfileIsHidden(ps: Profiles, id: Uuid, now: nat)
    requires Valid(ps) && id in ps
    ensures var s := DeleteProfile(ps, id, now);
      && s.result.value.Some? && s.result.value.value.deletedAt == Some(now)
      && s.result.value.value !in multiset(ListProfiles(s.profiles, None))
      && s.result.value.value in multiset(ListProfiles(s.profiles, Some(true)))
      && GetProfile(s.profiles, id).Ok?
  {
    var s := DeleteProfile(ps, id, now);
    var p' := s.result.value.value;
    assert p' in Listed(s.profiles, true) by { assert s.profiles[id] == p'; }
    assert p' !in Listed(s.profiles, false) by {
      forall k | k in s.profiles && s.profiles[k].deletedAt.None? ensures s.profiles[k] != p' {
      }
    }
  }

  /** The listings hold exactly the rows they promise. */
  lemma {:induction false} ListingContents(ps: Profiles, includeDeleted: Option<bool>)
    ensures var r := ListProfiles(ps, includeDeleted);
      && (forall p :: p in r <==> p in ps.Values && (includeDeleted == Some(true) || p.deletedAt.None?))
      && Ordered(r, ProfileCreated, true)
  {
    var r := ListProfiles(ps, includeDeleted);
    var l := Listed(ps, includeDeleted == Some(true));
    forall p ensures p in r <==> p in ps.Values && (includeDeleted == Some(true) || p.deletedAt.None?) {
      assert p in r <==> p in multiset(r);
      assert p in l <==> p in multiset(l);
      if p in ps.Values {
        var k :| k in ps && ps[k] == p;
      }
    }
  }

  /** Every mutation keeps the table's constraints. */
  lemma {:induction false} UpdateProfileKeepsValid(ps: Profiles, id: Uuid, patch: ProfilePatch, now: nat)
    requires Valid(ps)
    ensures Valid(UpdateProfile(ps, id, patch, now).profiles)
  {
    var u := UpdateProfile(ps, id, patch, now);
    if u.result.Ok? && u.result.value.Some? {
      var p' := u.result.value.value;
      forall a, b | a in u.profiles && b in u.profiles && a != b && u.profiles[a].email.Some?
        ensures u.profiles[a].email != u.profiles[b].email
      {
        if a == id {
          assert b in ps && u.profiles[b] == ps[b];
        } else if b == id {
          assert a in ps && u.profiles[a] == ps[a];
          if p'.email.Some? {
            assert !(a in ps && a != id && ps[a].email == Some(p'.email.value));
          }
        }
      }
    }
  }

  lemma {:induction false} DeleteProfileKeepsValid(ps: Profiles, id: Uuid, now: nat)
    requires Valid(ps)
    ensures Valid(DeleteProfile(ps, id, now).profiles)
  {
    var d := DeleteProfile(ps, id, now);
    forall a, b | a in d.profiles && b in d.profiles && a != b && d.profiles[a].email.Some?
      ensures d.profiles[a].email != d.profiles[b].email
    {
      assert d.profiles[a].email == ps[a].email && d.profiles[b].email == ps[b].email;
    }
  }

  lemma {:induction false} CreateInitialProfileKeepsValid(ps: Profiles, userId: Option<Uuid>, email: Option<string>, now: nat)
    requires Valid(ps)
    ensures Valid(CreateInitialProfile(ps, userId, email, now).profiles)
  {
    var c := CreateInitialProfile(ps, userId, email, now);
    if c.result.Ok? {
      var uid := userId.value;
      forall a, b | a in c.profiles && b in c.profiles && a != b && c.profiles[a].email.Some?
        ensures c.profiles[a].email != c.profiles[b].email
      {
        if a == uid {
          assert b in ps && c.profiles[b] == ps[b];
        } else if b == uid {
          assert a in ps && c.profiles[a] == ps[a];
          assert !(a in ps && a != uid && ps[a].email == Some(email.value));
        }
      }
    }
  }
}

/** The profile router as a service whose field is the `profiles` table. */
module ProfileRouter {
  import opened Common
  import opened ProfilesSchema
  import Spec = ProfileSpec

  class ProfileService {
    var profiles: map<Uuid, Profile>

    ghost predicate Valid()
      reads this
    {
      Spec.Valid(profiles)
    }

    constructor (initial: map<Uuid, Profile>)
      requires Spec.Valid(initial)
      ensures Valid() && profiles == initial
    {
      profiles := initial;
    }

    method UpdateProfile(id: Uuid, patch: Spec.ProfilePatch, now: nat) returns (r: Result<Option<Profile>>)
      requires Valid()
      modifies this
      ensures Valid()
      ensures profiles == Spec.UpdateProfile(old(profiles), id, patch, now).profiles
      ensures r == Spec.UpdateProfile(old(profiles), id, patch, now).result
    {
      Spec.UpdateProfileKeepsValid(profiles, id, patch, now);
      if Spec.EmptyPatch(patch) {
        return Err(Error(InternalServerError, "No values to set"));
      }
      if id !in profiles {
        return Ok(None);
      }
      var updated := Spec.Patched(profiles[id], patch, now);
      if !Spec.ProfileRowOk(updated) || (updated.email.Some? && EmailHeld(profiles, updated.email.value, id)) {
        return Err(Error(InternalServerError, Spec.DatabaseError));
      }
      profiles := profiles[id := updated];
      r := Ok(Some(updated));
    }

    method DeleteProfile(id: Uuid, now: nat) returns (r: Result<Option<Profile>>)
      requires Valid()
      modifies this
      ensures Valid()
      ensures profiles == Spec.DeleteProfile(old(profiles), id, now).profiles
      ensures r == Spec.DeleteProfile(old(profiles), id, now).result
    {
      Spec.DeleteProfileKeepsValid(profiles, id, now);
      if id !in profiles {
        return Ok(None);
      }
      var deleted := profiles[id].(deletedAt := Some(now), updatedAt := now);
      profiles := profiles[id := deleted];
      r := Ok(Some(deleted));
    }

    method CreateInitialProfile(userId: Option<Uuid>, email: Option<string>, now: nat) returns (r: Result<Profile>)
      requires Valid()
      modifies this
      ensures Valid()
      ensures profiles == Spec.CreateInitialProfile(old(profiles), userId, email, now).profiles
      ensures r == Spec.CreateInitialProfile(old(profiles), userId, email, now).result
    {
      Spec.CreateInitialProfileKeepsValid(profiles, userId, email, now);
      if !Truthy(userId) || !Truthy(email) {
        return Err(Error(Unauthorized, "User must be authenticated with email"));
      }
      if userId.value in profiles {
        return Err(Error(Conflict, "Profile already exists"));
      }
      var p := Spec.InitialProfile(userId.value, email.value, now);
      if !Spec.ProfileRowOk(p) || EmailHeld(profiles, email.value, userId.value) {
        return Err(Error(InternalServerError, Spec.DatabaseError));
      }
      profiles := profiles[userId.value := p];
      r := Ok(p);
    }
  }
}
