/** Vocabulary shared by every part of the model: optional values, the tRPC error
    codes the routers raise, procedure results, the JavaScript string operations the
    code relies on, and the ordered listings that `orderBy` produces. */
module Common {

  datatype Option<+T> = None | Some(value: T)

  /** The tRPC error codes raised by the routers (INTERNAL_SERVER_ERROR is also what a
      procedure reports when the database throws). */
  datatype Code = Unauthorized | Forbidden | NotFound | Conflict | BadRequest | InternalServerError

  datatype Error = Error(code: Code, message: string)

  /** What a procedure hands to its caller: a value, or a thrown TRPCError. */
  datatype Result<+T> = Ok(value: T) | Err(error: Error)

  /** Row ids and user ids are uuids, kept as their text. */
  type Uuid = string

  /** JavaScript truthiness of a nullable string: present and not "". */
  predicate Truthy(s: Option<string>)
  {
    s.Some? && s.value != ""
  }

  /** `s.startsWith(p)`. */
  predicate StartsWith(s: string, p: string)
  {
    |p| <= |s| && s[..|p|] == p
  }

  /** `s.split(sep)` for a one-character separator: the pieces between the separators,
      so there is always at least one piece. The first piece is the longest prefix of
      `s` without `sep`. */
  function Split(s: string, sep: char): (r: seq<string>)
    ensures |r| >= 1
    ensures forall i :: 0 <= i < |r| ==> sep !in r[i]
    ensures |r[0]| <= |s| && r[0] == s[..|r[0]|]
    ensures |r[0]| < |s| ==> s[|r[0]|] == sep
    ensures |r| == 1 <==> sep !in s
  {
    if |s| == 0 then [""]
    else if s[0] == sep then [""] + Split(s[1..], sep)
    else
      var rest := Split(s[1..], sep);
      [[s[0]] + rest[0]] + rest[1..]
  }

  /** `parts.join(sep)` for a one-character separator. */
  function Join(parts: seq<string>, sep: char): string
  {
    if |parts| == 0 then ""
    else if |parts| == 1 then parts[0]
    else parts[0] + [sep] + Join(parts[1..], sep)
  }

  /** Splitting and joining with the same separator gives back the string. */
  lemma {:induction false} JoinSplit(s: string, sep: char)
    ensures Join(Split(s, sep), sep) == s
  {
    if |s| == 0 {
    } else if s[0] == sep {
      JoinSplit(s[1..], sep);
      assert s == [sep] + s[1..];
    } else {
      JoinSplit(s[1..], sep);
      var rest := Split(s[1..], sep);
      if |rest| == 1 {
      } else {
        assert ([[s[0]] + rest[0]] + rest[1..])[1..] == rest[1..];
        assert s == [s[0]] + s[1..];
      }
    }
  }

  /** `s.split(sep)[0]`: the part of `s` before the first `sep`, or all of `s`. */
  function BeforeFirst(s: string, sep: char): (r: string)
    ensures sep !in r
    ensures |r| <= |s| && r == s[..|r|]
    ensures |r| < |s| ==> s[|r|] == sep
    ensures r == s <==> sep !in s
  {
    Split(s, sep)[0]
  }

  /** `toUpperCase` restricted to ASCII letters. */
  function UpperChar(c: char): (u: char)
    ensures 'a' <= c <= 'z' ==> u as int == c as int - 32
    ensures !('a' <= c <= 'z') ==> u == c
  {
    if 'a' <= c <= 'z' then (c as int - 32) as char else c
  }

  function Upper(s: string): (u: string)
    ensures |u| == |s|
    ensures forall i :: 0 <= i < |s| ==> u[i] == UpperChar(s[i])
  {
    if s == [] then [] else [UpperChar(s[0])] + Upper(s[1..])
  }

  /** x comes first among the elements of s in the requested direction. */
  ghost predicate IsExtreme<T>(x: T, s: set<T>, key: T -> int, desc: bool)
  {
    forall y :: y in s ==> if desc then key(y) <= key(x) else key(x) <= key(y)
  }

  /** r lists its elements by key, newest (largest) first when desc. */
  ghost predicate Ordered<T>(r: seq<T>, key: T -> int, desc: bool)
  {
    forall i, j :: 0 <= i < j < |r| ==> if desc then key(r[i]) >= key(r[j]) else key(r[i]) <= key(r[j])
  }

  lemma {:induction false} ExtremeExists<T>(s: set<T>, key: T -> int, desc: bool)
    requires s != {}
    ensures exists x :: x in s && IsExtreme(x, s, key, desc)
    decreases |s|
  {
    var y :| y in s;
    if s == {y} {
      assert IsExtreme(y, s, key, desc);
    } else {
      ExtremeExists(s - {y}, key, desc);
      var x :| x in s - {y} && IsExtreme(x, s - {y}, key, desc);
      if desc {
        if key(y) <= key(x) { assert IsExtreme(x, s, key, desc); } else { assert IsExtreme(y, s, key, desc); }
      } else {
        if key(x) <= key(y) { assert IsExtreme(x, s, key, desc); } else { assert IsExtreme(y, s, key, desc); }
      }
    }
  }

  /** The rows of `s` as `orderBy(desc(key))` (or ascending) returns them: every row
      exactly once, in key order. Rows with equal keys come in an unspecified order. */
  ghost function SortBy<T>(s: set<T>, key: T -> int, desc: bool): (r: seq<T>)
    ensures multiset(r) == multiset(s)
    ensures Ordered(r, key, desc)
    decreases |s|
  {
    if s == {} then []
    else
      ExtremeExists(s, key, desc);
      var x :| x in s && IsExtreme(x, s, key, desc);
      var t := SortBy(s - {x}, key, desc);
      ConsOrdered(x, t, s, key, desc);
      ConsMultiset(x, t, s);
      [x] + t
  }

  /** Putting the extreme element of s in front of an ordered listing of the rest keeps it ordered. */
  lemma ConsOrdered<T>(x: T, t: seq<T>, s: set<T>, key: T -> int, desc: bool)
    requires IsExtreme(x, s, key, desc) && Ordered(t, key, desc)
    requires multiset(t) == multiset(s - {x})
    ensures Ordered([x] + t, key, desc)
  {
    forall k | 0 <= k < |t| ensures t[k] in s {
      assert t[k] in multiset(t);
    }
  }

  lemma ConsMultiset<T>(x: T, t: seq<T>, s: set<T>)
    requires x in s && multiset(t) == multiset(s - {x})
    ensures multiset([x] + t) == multiset(s)
  {
    assert s == {x} + (s - {x});
  }
}
