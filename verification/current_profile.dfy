/** The shared profile store of frontend/src/composables/useCurrentProfile.js:
    the signed-in user's profile, fetched at most once at a time, cached
    until cleared or refreshed, and the `isTeam` flag derived from it. The
    asynchronous fetch is split into its start and its two endings. */
module CurrentProfile {
  import opened Common
  import opened Roles
  import Permissions

  /** The fields of the fetched profile the store reads: its roles, which
      the response may omit. */
  datatype ProfileData = ProfileData(roles: Option<seq<Role>>)

  /** `profile`, `loading`, `loaded` and `error`. */
  datatype Store = Store(profile: Option<ProfileData>, loading: bool, loaded: bool, error: Option<string>)

  const Initial: Store := Store(None, false, false, None)

  /** How `fetchProfile` begins: it returns the current profile at once, or
      sends `GET profiles/me/` from the given store. */
  datatype FetchStart = Returned(profile: Option<ProfileData>) | Requested(store: Store)

  /** `fetchProfile(force)` up to the request: a fetch in flight or a cached
      profile (unless forced) is returned without a request; otherwise the
      store is marked loading and its error cleared. */
  function StartFetch(s: Store, force: bool): (r: FetchStart)
    ensures s.loading ==> r == Returned(s.profile)
    ensures !s.loading && s.loaded && !force ==> r == Returned(s.profile)
    ensures r.Requested? <==> !s.loading && (!s.loaded || force)
    ensures r.Requested? ==> r.store == s.(loading := true, error := None)
  {
    if s.loading then Returned(s.profile)
    else if s.loaded && !force then Returned(s.profile)
    else Requested(s.(loading := true, error := None))
  }

  /** The request answered: the profile is stored and marked loaded. */
  function FetchSucceeded(s: Store, data: ProfileData): (r: Store)
    ensures r.profile == Some(data) && r.loaded && !r.loading
    ensures r.error == s.error
  {
    s.(profile := Some(data), loaded := true, loading := false)
  }

  /** The request failed: the error is recorded (and rethrown to the
      caller); the profile and `loaded` stay as they were. */
  function FetchFailed(s: Store, err: string): (r: Store)
    ensures r.error == Some(err) && !r.loading
    ensures r.profile == s.profile && r.loaded == s.loaded
  {
    s.(error := Some(err), loading := false)
  }

  /** `clearProfile`: profile, `loaded` and error reset; a fetch in flight
      keeps `loading`. */
  function ClearProfile(s: Store): (r: Store)
    ensures r.profile.None? && !r.loaded && r.error.None?
    ensures r.loading == s.loading
  {
    s.(profile := None, loaded := false, error := None)
  }

  /** `isTeam`: some role of the profile has the key TEAM; no profile or no
      roles means no. */
  function IsTeam(s: Store): (team: bool)
    ensures s.profile.None? ==> !team
    ensures s.profile.Some? && s.profile.value.roles.None? ==> !team
    ensures s.profile.Some? && s.profile.value.roles.Some? ==> (team <==> HasTeamRole(s.profile.value.roles.value))
  {
    s.profile.Some? && s.profile.value.roles.Some? && AnyTeam(s.profile.value.roles.value)
  }

  /** `roles.some(role => role.key === "TEAM")`, scanned from the front. */
  function AnyTeam(roles: seq<Role>): (r: bool)
    ensures r <==> HasTeamRole(roles)
    decreases |roles|
  {
    if |roles| == 0 then false
    else if roles[0].key == TEAM then true
    else
      var rest := AnyTeam(roles[1..]);
      assert forall i :: 1 <= i < |roles| ==> roles[i] == roles[1..][i - 1];
      rest
  }

  /** The store never claims to be loaded without a profile. */
  predicate Consistent(s: Store) {
    s.loaded ==> s.profile.Some?
  }

  /** Every transition keeps the store consistent. */
  lemma TransitionsConsistent(s: Store, force: bool, data: ProfileData, err: string)
    requires Consistent(s)
    ensures StartFetch(s, force).Requested? ==> Consistent(StartFetch(s, force).store)
    ensures Consistent(FetchSucceeded(s, data))
    ensures Consistent(FetchFailed(s, err))
    ensures Consistent(ClearProfile(s))
  {
  }

  /** Once loaded, a plain fetch is served from the cache and a forced one
      asks again. */
  lemma CachedAfterSuccess(s: Store, data: ProfileData, force: bool)
    ensures StartFetch(FetchSucceeded(s, data), false) == Returned(Some(data))
    ensures StartFetch(FetchSucceeded(s, data), true).Requested?
  {
  }

  /** A failed refresh keeps the profile the store already had. */
  lemma FailedRefreshKeepsProfile(s: Store, data: ProfileData, err: string)
    ensures var t := StartFetch(FetchSucceeded(s, data), true).store;
            FetchFailed(t, err).profile == Some(data) && FetchFailed(t, err).loaded
  {
  }

  /** After clearing, the next fetch asks the server again, unless one is
      still in flight. */
  lemma ClearForcesRequest(s: Store)
    requires !s.loading
    ensures StartFetch(ClearProfile(s), false).Requested?
  {
  }

  /** The client's flag and the server's `IsTeam` permission agree on the
      same roles. */
  lemma ClientAgreesWithServer(s: Store, user: Permissions.User)
    requires s.profile.Some? && s.profile.value.roles.Some?
    requires user.authenticated && user.profile.Some?
    requires user.profile.value.roles == s.profile.value.roles.value
    ensures IsTeam(s) == Permissions.IsTeam(Some(user))
  {
  }
}
