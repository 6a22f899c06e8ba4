/** Profiles, role keys and the TEAM pool that every other component consults. */
module Roles {
  import opened Common

  /** A profile's primary key. Database ids start at 1, which is what lets the
      source treat a falsy id as "no member". */
  type ProfileId = x: int | x > 0 witness 1

  /** The role key that marks a profile as part of the assignable team. */
  const TEAM: string := "TEAM"

  /** The keys of ROLE_CHOICES, in declaration order (core/models.py). */
  const RoleKeys: seq<string> := ["TEAM", "ARTIST", "PROD", "VIDEO", "MERCH", "MKT", "LOC"]

  datatype Role = Role(id: nat, key: string)

  /** A profile row: its id and the roles linked to it. */
  datatype Profile = Profile(id: ProfileId, roles: seq<Role>)

  /** Some linked role carries the TEAM key (`roles.filter(key="TEAM").exists()`). */
  predicate HasTeamRole(roles: seq<Role>) {
    exists i :: 0 <= i < |roles| && roles[i].key == TEAM
  }

  /** Profile ids are primary keys: no two rows share one. */
  predicate UniqueIds(profiles: seq<Profile>) {
    forall i, j :: 0 <= i < j < |profiles| ==> profiles[i].id != profiles[j].id
  }

  /** The ids of the profiles holding the TEAM role, in table order
      (`_team_profiles()`). */
  function TeamPool(profiles: seq<Profile>): (pool: seq<ProfileId>)
    ensures |pool| <= |profiles|
    ensures forall i :: 0 <= i < |profiles| && HasTeamRole(profiles[i].roles) ==> profiles[i].id in pool
    ensures forall m :: m in pool ==>
              exists i :: 0 <= i < |profiles| && profiles[i].id == m && HasTeamRole(profiles[i].roles)
    ensures UniqueIds(profiles) ==> Distinct(pool)
  {
    if |profiles| == 0 then []
    else
      var rest := TeamPool(profiles[1..]);
      var pool := if HasTeamRole(profiles[0].roles) then [profiles[0].id] + rest else rest;
      TeamPoolCovers(profiles, rest, pool);
      TeamPoolSound(profiles, rest, pool);
      TeamPoolDistinct(profiles, rest, pool);
      pool
  }

  /** One step of the pool: every TEAM holder of the table gets in. */
  lemma TeamPoolCovers(profiles: seq<Profile>, rest: seq<ProfileId>, pool: seq<ProfileId>)
    requires |profiles| > 0
    requires forall i :: 0 <= i < |profiles[1..]| && HasTeamRole(profiles[1..][i].roles) ==> profiles[1..][i].id in rest
    requires pool == if HasTeamRole(profiles[0].roles) then [profiles[0].id] + rest else rest
    ensures forall i :: 0 <= i < |profiles| && HasTeamRole(profiles[i].roles) ==> profiles[i].id in pool
  {
    forall i | 0 <= i < |profiles| && HasTeamRole(profiles[i].roles) ensures profiles[i].id in pool {
      if i > 0 {
        assert profiles[i] == profiles[1..][i - 1];
      }
    }
  }

  /** One step of the pool: only TEAM holders get in. */
  lemma TeamPoolSound(profiles: seq<Profile>, rest: seq<ProfileId>, pool: seq<ProfileId>)
    requires |profiles| > 0
    requires forall m :: m in rest ==>
               exists i :: 0 <= i < |profiles[1..]| && profiles[1..][i].id == m && HasTeamRole(profiles[1..][i].roles)
    requires pool == if HasTeamRole(profiles[0].roles) then [profiles[0].id] + rest else rest
    ensures forall m :: m in pool ==>
              exists i :: 0 <= i < |profiles| && profiles[i].id == m && HasTeamRole(profiles[i].roles)
  {
    forall m | m in pool
      ensures exists i :: 0 <= i < |profiles| && profiles[i].id == m && HasTeamRole(profiles[i].roles)
    {
      if m in rest {
        var i :| 0 <= i < |profiles[1..]| && profiles[1..][i].id == m && HasTeamRole(profiles[1..][i].roles);
        assert profiles[i + 1] == profiles[1..][i];
      } else {
        assert profiles[0].id == m && HasTeamRole(profiles[0].roles);
      }
    }
  }

  /** One step of the pool: with unique ids, nobody gets in twice. */
  lemma TeamPoolDistinct(profiles: seq<Profile>, rest: seq<ProfileId>, pool: seq<ProfileId>)
    requires |profiles| > 0
    requires forall m :: m in rest ==>
               exists i :: 0 <= i < |profiles[1..]| && profiles[1..][i].id == m && HasTeamRole(profiles[1..][i].roles)
    requires UniqueIds(profiles[1..]) ==> Distinct(rest)
    requires pool == if HasTeamRole(profiles[0].roles) then [profiles[0].id] + rest else rest
    ensures UniqueIds(profiles) ==> Distinct(pool)
  {
    if UniqueIds(profiles) {
      assert UniqueIds(profiles[1..]) by {
        forall i, j | 0 <= i < j < |profiles[1..]| ensures profiles[1..][i].id != profiles[1..][j].id {
          assert profiles[1..][i] == profiles[i + 1] && profiles[1..][j] == profiles[j + 1];
        }
      }
      if HasTeamRole(profiles[0].roles) {
        assert profiles[0].id !in rest by {
          forall m | m in rest ensures m != profiles[0].id {
            var i :| 0 <= i < |profiles[1..]| && profiles[1..][i].id == m && HasTeamRole(profiles[1..][i].roles);
            assert profiles[i + 1] == profiles[1..][i];
          }
        }
        DistinctCons(profiles[0].id, rest);
      }
    }
  }

  /** The team pool contains exactly the TEAM holders: a profile of the table
      is in the pool iff it has the TEAM role. */
  lemma {:induction false} TeamPoolMembership(profiles: seq<Profile>, p: Profile)
    requires UniqueIds(profiles)
    requires p in profiles
    ensures p.id in TeamPool(profiles) <==> HasTeamRole(p.roles)
  {
    var j :| 0 <= j < |profiles| && profiles[j] == p;
    if p.id in TeamPool(profiles) {
      var i :| 0 <= i < |profiles| && profiles[i].id == p.id && HasTeamRole(profiles[i].roles);
      assert i == j;
    }
  }
}
