/** The `profiles` table, which the profile router owns and the workspace router reads
    (display name and email, and as the target of the creator, member and inviter
    references). */
module ProfilesSchema {
  import opened Common

  /** A `profiles` row; its id is the authenticated user's id. */
  datatype Profile = Profile(
    id: Uuid,
    name: Option<string>,
    avatarUrl: Option<string>,
    username: Option<string>,
    email: Option<string>,
    role: string,
    createdAt: nat,
    updatedAt: nat,
    deletedAt: Option<nat>)

  /** `unique_email`: no two rows share an email; null emails never clash. */
  predicate UniqueEmails(ps: map<Uuid, Profile>)
  {
    forall a, b :: a in ps && b in ps && a != b && ps[a].email.Some? ==> ps[a].email != ps[b].email
  }

  /** Some row other than `except` already holds `email`. */
  predicate EmailHeld(ps: map<Uuid, Profile>, email: string, except: Uuid)
  {
    exists id :: id in ps && id != except && ps[id].email == Some(email)
  }
}
