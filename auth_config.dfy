/** The login gate that runs in front of every page: the application's pages
    (everything under `/collection`, `/pens`, `/inks`, `/wishlist` and `/stats`) need a
    signed-in user, every other path is open. */
module AuthConfig {
  import opened Common

  /** The sign-in page that a refused request is sent to. */
  const SignInPage: string := "/login"

  const AppPrefixes: seq<string> := ["/collection", "/pens", "/inks", "/wishlist", "/stats"]

  /** `!!auth?.user`. */
  predicate LoggedIn(auth: Option<Session>) {
    auth.Some? && auth.value.user.Some?
  }

  /** `prefixes.some(p => path.startsWith(p))`. */
  function StartsWithAny(path: string, prefixes: seq<string>): (r: bool)
    ensures r <==> exists i :: 0 <= i < |prefixes| && StartsWith(path, prefixes[i])
  {
    if prefixes == [] then false
    else if StartsWith(path, prefixes[0]) then true
    else
      var r := StartsWithAny(path, prefixes[1..]);
      assert forall i :: 1 <= i < |prefixes| ==> prefixes[i] == prefixes[1..][i - 1];
      r
  }

  predicate IsAppRoute(path: string) {
    StartsWithAny(path, AppPrefixes)
  }

  /** The `authorized` callback. */
  function Authorized(auth: Option<Session>, path: string): (allowed: bool)
    ensures IsAppRoute(path) ==> (allowed <==> LoggedIn(auth))
    ensures !IsAppRoute(path) ==> allowed
    ensures LoggedIn(auth) ==> allowed
  {
    if IsAppRoute(path) then LoggedIn(auth) else true
  }

  /** Every path below an application prefix is gated, whatever follows the prefix:
      the test is a plain prefix test, not a path-segment test. */
  lemma PrefixGates(prefix: string, rest: string)
    requires prefix in AppPrefixes
    ensures IsAppRoute(prefix + rest)
    ensures forall auth :: Authorized(auth, prefix + rest) <==> LoggedIn(auth)
  {
    var i :| 0 <= i < |AppPrefixes| && AppPrefixes[i] == prefix;
    assert (prefix + rest)[..|prefix|] == prefix;
  }

  /** `/pensive` and `/statsx` are gated although they are no application page. */
  lemma LookalikePathsAreGated()
    ensures IsAppRoute("/pensive") && IsAppRoute("/statsx")
  {
    PrefixGates("/pens", "ive");
    PrefixGates("/stats", "x");
  }

  /** The home page and the sign-in page are open to everybody. */
  lemma HomeAndSignInAreOpen(auth: Option<Session>)
    ensures Authorized(auth, "/") && Authorized(auth, SignInPage)
  {
    forall i | 0 <= i < |AppPrefixes| ensures !StartsWith(SignInPage, AppPrefixes[i]) {
      assert SignInPage[1] != AppPrefixes[i][1];
    }
  }
}
