/** The small helpers shared by the auth actions. */
module Helpers {
  import opened Common
  import opened Text
  import opened Roles

  /** The message of an `Error`, or `defaultMessage` for any other thrown value. */
  function ExtractErrorMessage(error: Thrown, defaultMessage: string): (m: string)
    ensures IsErrorInstance(error) ==> m == error.message
    ensures !IsErrorInstance(error) ==> m == defaultMessage
  {
    match error
    case AuthError(_, message) => message
    case PlainError(message) => message
    case NonError => defaultMessage
  }

  /** The last `/`-separated segment of `url`, upper-cased. */
  function UrlToUserRole(url: string): (r: string)
    ensures '/' !in r
    ensures |r| <= |url| && r == Upper(url[|url| - |r|..])
    ensures |r| < |url| ==> url[|url| - |r| - 1] == '/'
  {
    Upper(AfterLast(url, '/'))
  }

  /** `role.toLowerCase()`: same length, each letter lowered, nothing else touched. */
  function UserRoleToLowerCaseString(role: string): (r: string)
    ensures |r| == |role|
    ensures forall i :: 0 <= i < |role| ==> r[i] == LowerChar(role[i])
    ensures forall i :: 0 <= i < |role| ==> !('A' <= r[i] <= 'Z')
    ensures forall i :: 0 <= i < |role| ==> (r[i] == role[i] <==> !('A' <= role[i] <= 'Z'))
  {
    Lower(role)
  }

  /** `Date.now() + minutes * 60 * 1000`, with the clock reading passed in as `now` (milliseconds). */
  function ExpiryInMinutes(now: int, minutes: int): (t: int)
    ensures t > now <==> minutes > 0
    ensures (t - now) % 60000 == 0
    ensures t - now == minutes * 60000
  {
    now + minutes * 60 * 1000
  }

  /** Longer lifetimes expire strictly later. */
  lemma ExpiryStrictlyIncreasing(now: int, a: int, b: int)
    requires a < b
    ensures ExpiryInMinutes(now, a) < ExpiryInMinutes(now, b)
  {
  }

  /** The text after the last separator is exactly the final segment when that segment has none. */
  lemma {:induction false} AfterLastOfSuffix(prefix: string, seg: string)
    requires '/' !in seg
    ensures AfterLast(prefix + "/" + seg, '/') == seg
  {
    var s := prefix + "/" + seg;
    if |seg| > 0 {
      var init := seg[..|seg| - 1];
      assert s[..|s| - 1] == prefix + "/" + init;
      assert seg[|seg| - 1] in seg;
      AfterLastOfSuffix(prefix, init);
      assert init + [seg[|seg| - 1]] == seg;
    }
  }

  /** A string without separators is its own last segment. */
  lemma {:induction false} AfterLastWithoutSeparator(s: string)
    requires '/' !in s
    ensures AfterLast(s, '/') == s
  {
    if |s| > 0 {
      var init, last := s[..|s| - 1], s[|s| - 1];
      assert last != '/' by { assert s[|s| - 1] in s; }
      assert '/' !in init by {
        forall i | 0 <= i < |init| ensures init[i] != '/' { assert init[i] == s[i]; }
      }
      AfterLastWithoutSeparator(init);
      assert AfterLast(s, '/') == AfterLast(init, '/') + [last];
      assert init + [last] == s;
    }
  }

  /** Lower-casing a role and reading it back from a URL gives the enum value again. */
  lemma {:induction false} RoleUrlRoundTrip(r: UserRole)
    ensures UrlToUserRole(UserRoleToLowerCaseString(RoleName(r))) == RoleName(r)
    ensures UrlToUserRole("/login/" + UserRoleToLowerCaseString(RoleName(r))) == RoleName(r)
  {
    var name := RoleName(r);
    var low := Lower(name);
    assert '/' !in low;
    UpperLowerInverse(name);
    AfterLastWithoutSeparator(low);
    AfterLastOfSuffix("/login", low);
    assert "/login" + "/" + low == "/login/" + low;
  }

  /** The role read from a role's log-in URL parses back to that role. */
  lemma {:induction false} RoleFromLoginUrl(r: UserRole)
    ensures ParseRole(UrlToUserRole("/login/" + UserRoleToLowerCaseString(RoleName(r)))) == Some(r)
  {
    RoleUrlRoundTrip(r);
    ParseRoleName(r);
  }
}
