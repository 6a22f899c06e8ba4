/** The `IsTeam` permission of core/permissions.py and the authentication
    check it builds on. */
module Permissions {
  import opened Common
  import opened Roles

  /** The request's user: whether it is authenticated, and its profile when
      one is linked. A missing user is `None`. */
  datatype User = User(authenticated: bool, profile: Option<Profile>)

  /** The framework's `IsAuthenticated`: a user is present and authenticated. */
  predicate IsAuthenticated(user: Option<User>) {
    user.Some? && user.value.authenticated
  }

  /** `IsTeam.has_permission`: refused without a user, without
      authentication or without a profile; otherwise granted exactly when the
      profile holds the TEAM role. */
  function IsTeam(user: Option<User>): (granted: bool)
    ensures user.None? ==> !granted
    ensures user.Some? && !user.value.authenticated ==> !granted
    ensures user.Some? && user.value.profile.None? ==> !granted
    ensures granted ==> IsAuthenticated(user)
    ensures IsAuthenticated(user) && user.value.profile.Some? ==>
              (granted <==> HasTeamRole(user.value.profile.value.roles))
  {
    if user.None? || !user.value.authenticated then false
    else if user.value.profile.None? then false
    else HasTeamRole(user.value.profile.value.roles)
  }

  /** The permission and the assignment pool agree: an authenticated user
      whose profile is a row of the table is let through exactly when that
      profile is in the TEAM pool. */
  lemma IsTeamMatchesPool(user: Option<User>, profiles: seq<Profile>)
    requires UniqueIds(profiles)
    requires IsAuthenticated(user) && user.value.profile.Some? && user.value.profile.value in profiles
    ensures IsTeam(user) <==> user.value.profile.value.id in TeamPool(profiles)
  {
    TeamPoolMembership(profiles, user.value.profile.value);
  }
}
