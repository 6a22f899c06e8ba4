/** The decisions the serializers of core/serializers.py take on their own:
    who may hand out the TEAM role, the locked flag, attachment file names,
    display names and the participant set of a project. Field copying and
    validation are the framework's and are left out. */
module Serializers {
  import opened Common
  import opened Roles
  import opened Text

  // ---------------------------------------------------------------------
  // ProfileSerializer.update: the TEAM role
  // ---------------------------------------------------------------------

  /** The roles without the TEAM ones, in their order. */
  function WithoutTeam(roles: seq<Role>): (r: seq<Role>)
    ensures forall x :: x in r <==> x in roles && x.key != TEAM
    ensures !HasTeamRole(r)
    ensures |r| <= |roles|
    decreases |roles|
  {
    if |roles| == 0 then []
    else
      var rest := WithoutTeam(roles[1..]);
      assert forall x :: x in roles <==> x == roles[0] || x in roles[1..];
      if roles[0].key != TEAM then [roles[0]] + rest else rest
  }

  /** Removing TEAM roles works piece by piece, so the order of the other
      roles is kept. */
  lemma {:induction false} WithoutTeamAppend(a: seq<Role>, b: seq<Role>)
    ensures WithoutTeam(a + b) == WithoutTeam(a) + WithoutTeam(b)
    decreases |a|
  {
    if |a| > 0 {
      assert (a + b)[1..] == a[1..] + b;
      WithoutTeamAppend(a[1..], b);
    } else {
      assert a + b == b;
    }
  }

  /** A list without TEAM roles is left exactly as it is. */
  lemma {:induction false} WithoutTeamKeeps(roles: seq<Role>)
    requires !HasTeamRole(roles)
    ensures WithoutTeam(roles) == roles
    decreases |roles|
  {
    if |roles| > 0 {
      assert roles[0].key != TEAM;
      WithoutTeamKeeps(roles[1..]);
    }
  }

  /** The requester holds the TEAM role: `request.user.profile` exists and
      has it. A requester without a profile is `None`. */
  predicate RequesterIsTeam(requester: Option<Profile>) {
    requester.Some? && HasTeamRole(requester.value.roles)
  }

  /** The roles a profile has after `ProfileSerializer.update`: `roles` is
      the validated `role_ids` (absent in a partial update), `request` the
      request of the context (`None` without one) holding the requester's
      profile. */
  function UpdateRoles(current: seq<Role>, roles: Option<seq<Role>>, request: Option<Option<Profile>>)
    : (r: seq<Role>)
    ensures roles.None? ==> r == current
    ensures roles.Some? && (request.None? || RequesterIsTeam(request.value)) ==> r == roles.value
    ensures roles.Some? && request.Some? && !RequesterIsTeam(request.value) ==>
              r == WithoutTeam(roles.value) && !HasTeamRole(r)
  {
    if roles.None? then current
    else if request.Some? && !RequesterIsTeam(request.value) then WithoutTeam(roles.value)
    else roles.value
  }

  /** Nobody outside the team hands out the TEAM role: after an update by a
      requester who is not TEAM, the profile has it only if it had it before. */
  lemma NoTeamEscalation(current: seq<Role>, roles: Option<seq<Role>>, requester: Option<Profile>)
    requires !RequesterIsTeam(requester)
    ensures HasTeamRole(UpdateRoles(current, roles, Some(requester))) ==> HasTeamRole(current)
  {
  }

  /** Roles without TEAM pass through whoever sends them. */
  lemma NonTeamRolesPass(current: seq<Role>, roles: seq<Role>, request: Option<Option<Profile>>)
    requires !HasTeamRole(roles)
    ensures UpdateRoles(current, Some(roles), request) == roles
  {
    if request.Some? && !RequesterIsTeam(request.value) {
      WithoutTeamKeeps(roles);
    }
  }

  // ---------------------------------------------------------------------
  // ProfileSerializer.get_is_locked
  // ---------------------------------------------------------------------

  /** The linked user, as its `is_active` flag; `None` without a user. */
  function IsLocked(userIsActive: Option<bool>): (locked: bool)
    ensures locked <==> userIsActive == Some(false)
  {
    if userIsActive.None? then false else !userIsActive.value
  }

  // ---------------------------------------------------------------------
  // get_file_name of messages and attachments
  // ---------------------------------------------------------------------

  /** `get_file_name`: nothing without a file (an empty name is no file),
      otherwise the part of the stored name after the last '/'. */
  function FileName(file: Option<string>): (r: Option<string>)
    ensures r.None? <==> file.None? || file.value == ""
    ensures r.Some? ==> '/' !in r.value && EndsWith(file.value, r.value)
    ensures r.Some? ==> |r.value| == |file.value| || file.value[|file.value| - |r.value| - 1] == '/'
  {
    if file.None? || file.value == "" then None else Some(AfterLast(file.value, '/'))
  }

  /** A name stored under folders gives back its own last part. */
  lemma FileNameOfPath(folder: string, name: string)
    requires name != "" && '/' !in name
    ensures FileName(Some(folder + "/" + name)) == Some(name)
  {
    SplitLastPiece(folder, '/', name);
  }

  // ---------------------------------------------------------------------
  // Display names
  // ---------------------------------------------------------------------

  /** `getattr(p, "name", "") or p.user.username`: the profile's name, or
      its username when the name is missing or empty. */
  function DisplayName(name: Option<string>, username: string): (r: string)
    ensures name.Some? && name.value != "" ==> r == name.value
    ensures name.None? || name.value == "" ==> r == username
  {
    if name.Some? && name.value != "" then name.value else username
  }

  /** A user with a username is never shown with an empty name. */
  lemma DisplayNameNonEmpty(name: Option<string>, username: string)
    requires username != ""
    ensures DisplayName(name, username) != ""
  {
  }

  // ---------------------------------------------------------------------
  // ProjectSerializer: participants
  // ---------------------------------------------------------------------

  /** The participants of a new project: the given ones when the list is
      present and not empty, none otherwise. */
  function CreateParticipants(participants: Option<seq<ProfileId>>): (r: set<ProfileId>)
    ensures participants.Some? && participants.value != [] ==>
              forall p :: p in r <==> p in participants.value
    ensures participants.None? || participants.value == [] ==> r == {}
  {
    if participants.Some? && participants.value != [] then set p | p in participants.value else {}
  }

  /** The participants after an update: replaced by the given list, even an
      empty one, and kept when none is given. */
  function UpdateParticipants(current: set<ProfileId>, participants: Option<seq<ProfileId>>)
    : (r: set<ProfileId>)
    ensures participants.None? ==> r == current
    ensures participants.Some? ==> forall p :: p in r <==> p in participants.value
  {
    if participants.None? then current else set p | p in participants.value
  }

  /** Skipping the empty list on create makes no difference: a new project
      holds exactly what an update of an empty one would give it. */
  lemma CreateIsUpdateOfEmpty(participants: Option<seq<ProfileId>>)
    ensures CreateParticipants(participants) == UpdateParticipants({}, participants)
  {
  }

  /** Sending the same participants twice changes nothing the second time. */
  lemma UpdateParticipantsIdempotent(current: set<ProfileId>, participants: Option<seq<ProfileId>>)
    ensures UpdateParticipants(UpdateParticipants(current, participants), participants)
            == UpdateParticipants(current, participants)
  {
  }
}
