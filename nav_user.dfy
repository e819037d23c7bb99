/** The sidebar's user entry: the name shown for the signed-in user and the initials on
    the avatar fallback, derived from the profile's name and email. */
module NavUser {
  import opened Common

  /** `getDisplayName()`: the name, else the part of the email before the first "@",
      else "User". */
  function DisplayName(name: Option<string>, email: Option<string>): string
  {
    if Truthy(name) then name.value
    else if Truthy(email) then BeforeFirst(email.value, '@')
    else "User"
  }

  /** `parts.map((p) => p[0]).join("")`: the first character of every piece; an empty
      piece gives `undefined`, which `join` writes as nothing. */
  function Heads(parts: seq<string>): string
  {
    if parts == [] then ""
    else (if parts[0] == "" then "" else [parts[0][0]]) + Heads(parts[1..])
  }

  /** `s.slice(0, 2)`. */
  function FirstTwo(s: string): string
  {
    if |s| <= 2 then s else s[..2]
  }

  /** The non-empty pieces, in their order. */
  function NonEmpty(parts: seq<string>): seq<string>
  {
    if parts == [] then []
    else (if parts[0] == "" then [] else [parts[0]]) + NonEmpty(parts[1..])
  }

  /** `getInitials()`. None stands for the TypeError thrown when the email's local part
      is empty: its `[0]` is undefined and has no `toUpperCase`. */
  function Initials(name: Option<string>, email: Option<string>): Option<string>
  {
    if Truthy(name) then Some(Upper(FirstTwo(Heads(Split(name.value, ' ')))))
    else if Truthy(email) then
      var local := BeforeFirst(email.value, '@');
      if local == "" then None else Some(Upper([local[0]]))
    else Some("X")
  }

  /** Heads takes, in order, the first character of each non-empty piece; the non-empty
      pieces are exactly the pieces other than "". */
  lemma {:induction false} HeadsOfPieces(parts: seq<string>)
    ensures |Heads(parts)| == |NonEmpty(parts)|
    ensures forall k :: 0 <= k < |NonEmpty(parts)| ==> NonEmpty(parts)[k] != "" && Heads(parts)[k] == NonEmpty(parts)[k][0]
    ensures forall p :: p in NonEmpty(parts) <==> p in parts && p != ""
    ensures parts != [] && parts[0] != "" ==> NonEmpty(parts)[0] == parts[0]
  {
    if parts != [] {
      var rest := parts[1..];
      HeadsOfPieces(rest);
      var head := if parts[0] == "" then "" else [parts[0][0]];
      var kept := if parts[0] == "" then [] else [parts[0]];
      assert Heads(parts) == head + Heads(rest);
      assert NonEmpty(parts) == kept + NonEmpty(rest);
      forall k | 0 <= k < |NonEmpty(parts)|
        ensures NonEmpty(parts)[k] != "" && Heads(parts)[k] == NonEmpty(parts)[k][0]
      {
        if k >= |kept| {
          assert NonEmpty(parts)[k] == NonEmpty(rest)[k - |kept|];
          assert Heads(parts)[k] == Heads(rest)[k - |head|];
        }
      }
      assert forall p :: p in parts <==> p == parts[0] || p in rest;
    }
  }

  /** The display name: the name when non-empty, else the email's local part (a prefix
      of the email with no "@" in it), else "User". */
  lemma DisplayNameCases(name: Option<string>, email: Option<string>)
    ensures Truthy(name) ==> DisplayName(name, email) == name.value
    ensures !Truthy(name) && Truthy(email) ==>
      var d := DisplayName(name, email);
      && '@' !in d
      && StartsWith(email.value, d)
      && ('@' in email.value ==> email.value[|d|] == '@')
      && ('@' !in email.value ==> d == email.value)
    ensures !Truthy(name) && !Truthy(email) ==> DisplayName(name, email) == "User"
  {
  }

  /** Name initials: one upper-cased first character for each of the first two
      non-empty space-separated pieces, so at most two characters. */
  lemma NameInitials(name: string, email: Option<string>)
    requires name != ""
    ensures Initials(Some(name), email).Some?
    ensures var words := NonEmpty(Split(name, ' '));
      var i := Initials(Some(name), email).value;
      && |i| == (if |words| < 2 then |words| else 2)
      && forall k :: 0 <= k < |i| ==> words[k] != "" && i[k] == UpperChar(words[k][0])
  {
    var parts := Split(name, ' ');
    HeadsOfPieces(parts);
    var h := Heads(parts);
    var i := Initials(Some(name), email).value;
    assert i == Upper(FirstTwo(h));
    forall k | 0 <= k < |i|
      ensures i[k] == UpperChar(NonEmpty(parts)[k][0])
    {
      assert FirstTwo(h)[k] == h[k];
    }
  }

  /** For a user with a name or an email, the initials begin with the upper-cased first
      character of the display name whenever that name does not begin with a space (the
      fallbacks differ: "User" against "X"); only an email whose local part is empty
      makes the initials throw. */
  lemma InitialsFollowDisplayName(name: Option<string>, email: Option<string>)
    ensures Initials(name, email).None? <==> !Truthy(name) && Truthy(email) && DisplayName(name, email) == ""
    ensures var d := DisplayName(name, email);
      (Truthy(name) || Truthy(email)) && Initials(name, email).Some? && d != "" && d[0] != ' ' ==>
        Initials(name, email).value != "" && Initials(name, email).value[0] == UpperChar(d[0])
    ensures !Truthy(name) && !Truthy(email) ==> Initials(name, email) == Some("X")
  {
    if Truthy(name) && name.value[0] != ' ' {
      var parts := Split(name.value, ' ');
      assert parts[0][0] == name.value[0];
      HeadsOfPieces(parts);
      assert Heads(parts)[0] == parts[0][0];
      var h := Heads(parts);
      assert FirstTwo(h)[0] == h[0];
    } else if !Truthy(name) && Truthy(email) && DisplayName(name, email) != "" {
      var local := BeforeFirst(email.value, '@');
      assert Upper([local[0]])[0] == UpperChar(local[0]);
    }
  }
}
