/** The request-level rules of core/views.py: the task list's query
    parameters, who sees which projects and requests, who may change
    projects, the find-or-create of chat threads, the role counts of
    `stats` and the validation of `register`. Database rows are explicit
    sequences in table (primary-key) order. */
module Views {
  import opened Common
  import opened Roles
  import opened Text
  import opened Permissions

  // ---------------------------------------------------------------------
  // Task list: `?project=` and `?status=`
  // ---------------------------------------------------------------------

  /** The fields of a task the list filters on. */
  datatype TaskRow = TaskRow(id: nat, project: int, status: string)

  /** A status the filter can hold: not empty, no white space at either end
      and no lower-case ASCII letter. */
  predicate IsStatusToken(t: string) {
    t != "" && !IsSpace(t[0]) && !IsSpace(t[|t| - 1]) && forall k :: 0 <= k < |t| ==> !IsLowerAscii(t[k])
  }

  /** The status a piece of the parameter names: the piece stripped and
      upper-cased, none when it strips to nothing. */
  function PieceStatus(p: string): Option<string> {
    var s := Strip(p);
    if s == "" then None else Some(Upper(s))
  }

  /** The piece `p` of the parameter names the status `t`. */
  predicate Names(p: string, t: string) {
    PieceStatus(p) == Some(t)
  }

  /** A piece kept by the status parser: stripped, non-empty, upper-cased. */
  lemma CleanPiece(p: string)
    requires Strip(p) != ""
    ensures IsStatusToken(Upper(Strip(p)))
  {
    var s := Strip(p);
    UpperKeepsSpace(s[0]);
    UpperKeepsSpace(s[|s| - 1]);
  }

  /** The comprehension of the view: each piece stripped, empty ones
      dropped, the rest upper-cased, in order. */
  function CleanStatuses(parts: seq<string>): (r: seq<string>)
    ensures |r| <= |parts|
    ensures forall k :: 0 <= k < |r| ==> IsStatusToken(r[k])
    decreases |parts|
  {
    if |parts| == 0 then []
    else
      var s := Strip(parts[0]);
      if s == "" then CleanStatuses(parts[1..])
      else
        CleanPiece(parts[0]);
        [Upper(s)] + CleanStatuses(parts[1..])
  }

  /** The comprehension keeps the statuses the pieces name, in order. */
  lemma {:induction false} CleanStatusesKeepSome(parts: seq<string>)
    ensures CleanStatuses(parts) == KeepSome(parts, PieceStatus)
    decreases |parts|
  {
    if |parts| > 0 {
      CleanStatusesKeepSome(parts[1..]);
    }
  }

  /** A status is kept exactly when some piece names it. */
  lemma CleanStatusesMembers(parts: seq<string>, t: string)
    ensures t in CleanStatuses(parts) <==> exists k :: 0 <= k < |parts| && Names(parts[k], t)
  {
    CleanStatusesKeepSome(parts);
    KeepSomeMembers(parts, PieceStatus, t);
  }

  /** The statuses a `status` parameter names. */
  function ParseStatuses(status: string): (r: seq<string>)
    ensures forall k :: 0 <= k < |r| ==> IsStatusToken(r[k])
    ensures |r| <= |Split(status, ',')|
  {
    CleanStatuses(Split(status, ','))
  }

  /** A status that is already clean strips and upper-cases to itself. */
  lemma TokenIsClean(t: string)
    requires IsStatusToken(t)
    ensures Strip(t) == t && Upper(Strip(t)) == t
  {
    assert StripStart(t) == t;
    assert StripEnd(t) == t;
    assert Upper(t) == t;
  }

  /** A clean list of statuses free of commas, joined with commas, parses
      back to itself: the parser loses nothing that could be a status. */
  lemma ParseJoined(tokens: seq<string>)
    requires |tokens| >= 1
    requires forall k :: 0 <= k < |tokens| ==> IsStatusToken(tokens[k]) && ',' !in tokens[k]
    ensures ParseStatuses(Join(tokens, ',')) == tokens
  {
    SplitJoin(tokens, ',');
    CleanTokens(tokens);
  }

  lemma {:induction false} CleanTokens(tokens: seq<string>)
    requires forall k :: 0 <= k < |tokens| ==> IsStatusToken(tokens[k])
    ensures CleanStatuses(tokens) == tokens
    decreases |tokens|
  {
    if |tokens| > 0 {
      var t := tokens[0];
      var rest := tokens[1..];
      assert tokens == [t] + rest;
      CleanTokens(rest);
      assert CleanStatuses(tokens) == [t] + rest by {
        TokenIsClean(t);
      }
    }
  }

  /** Nothing is filtered on when every piece is blank: an empty
      parameter, commas and white space only. */
  lemma {:induction false} NoStatusesWhenBlank(parts: seq<string>)
    ensures CleanStatuses(parts) == [] <==> forall k :: 0 <= k < |parts| ==> AllSpace(parts[k])
    decreases |parts|
  {
    if |parts| > 0 {
      StripEmpty(parts[0]);
      NoStatusesWhenBlank(parts[1..]);
      if forall k :: 0 <= k < |parts[1..]| ==> AllSpace(parts[1..][k]) {
        assert forall k :: 1 <= k < |parts| ==> AllSpace(parts[k]) by {
          forall k | 1 <= k < |parts| ensures AllSpace(parts[k]) {
            assert parts[k] == parts[1..][k - 1];
          }
        }
      }
    }
  }

  /** The task passes the two filters: the project one when a project is
      given, the status one when the parsed list is not empty. */
  predicate PassesFilters(t: TaskRow, project: Option<int>, statuses: seq<string>) {
    (project.Some? ==> t.project == project.value) && (statuses != [] ==> t.status in statuses)
  }

  function FilterTasks(tasks: seq<TaskRow>, project: Option<int>, statuses: seq<string>): (r: seq<TaskRow>)
    ensures |r| <= |tasks|
    ensures forall t :: t in r <==> t in tasks && PassesFilters(t, project, statuses)
    decreases |tasks|
  {
    if |tasks| == 0 then []
    else
      var rest := FilterTasks(tasks[1..], project, statuses);
      assert forall t :: t in tasks <==> t == tasks[0] || t in tasks[1..];
      if PassesFilters(tasks[0], project, statuses) then [tasks[0]] + rest else rest
  }

  /** `TaskViewSet.get_queryset`: `project` is the parameter when present
      and not empty, `status` the raw parameter. */
  function TaskQuery(tasks: seq<TaskRow>, project: Option<int>, status: Option<string>): (r: seq<TaskRow>)
    ensures forall t :: t in r <==>
              (t in tasks && (project.Some? ==> t.project == project.value) &&
               (status.Some? && ParseStatuses(status.value) != [] ==> t.status in ParseStatuses(status.value)))
    ensures project.None? && (status.None? || ParseStatuses(status.value) == []) ==> r == tasks
  {
    var statuses := if status.Some? then ParseStatuses(status.value) else [];
    var r := FilterTasks(tasks, project, statuses);
    assert project.None? && statuses == [] ==> r == tasks by {
      if project.None? && statuses == [] {
        FilterAll(tasks, statuses);
      }
    }
    r
  }

  lemma {:induction false} FilterAll(tasks: seq<TaskRow>, statuses: seq<string>)
    requires statuses == []
    ensures FilterTasks(tasks, None, statuses) == tasks
    decreases |tasks|
  {
    if |tasks| > 0 {
      FilterAll(tasks[1..], statuses);
    }
  }

  // ---------------------------------------------------------------------
  // Projects: visibility and permissions
  // ---------------------------------------------------------------------

  datatype ProjectRow = ProjectRow(id: nat, participants: set<ProfileId>)

  /** The projects `me` may see: the whole table for a TEAM member,
      otherwise the projects listing `me`, in table order. */
  function ProjectsOf(me: Profile, projects: seq<ProjectRow>): (r: seq<ProjectRow>)
    ensures HasTeamRole(me.roles) ==> r == projects
    ensures forall p :: p in r <==> p in projects && (HasTeamRole(me.roles) || me.id in p.participants)
    ensures Subsequence(r, projects)
    decreases |projects|
  {
    if HasTeamRole(me.roles) || |projects| == 0 then
      SubsequenceSelf(projects);
      projects
    else
      var rest := ProjectsOf(me, projects[1..]);
      SubsequenceTail(rest, projects);
      assert forall p :: p in projects <==> p == projects[0] || p in projects[1..];
      if me.id in projects[0].participants then [projects[0]] + rest else rest
  }

  /** `ProjectViewSet.get_queryset`. `me` is None for a user without a
      profile, whose `request.user.profile` raises (a 500, given as None
      here); otherwise the projects `me` may see. */
  function VisibleProjects(me: Option<Profile>, projects: seq<ProjectRow>): (r: Option<seq<ProjectRow>>)
    ensures r.None? <==> me.None?
    ensures r.Some? && HasTeamRole(me.value.roles) ==> r.value == projects
    ensures r.Some? ==> forall p :: p in r.value <==> p in projects && (HasTeamRole(me.value.roles) || me.value.id in p.participants)
    ensures r.Some? ==> Subsequence(r.value, projects) && |r.value| <= |projects|
  {
    if me.None? then None
    else
      var r := ProjectsOf(me.value, projects);
      SubsequenceLength(r, projects);
      Some(r)
  }

  /** The methods that only read. */
  const SafeMethods: set<string> := {"GET", "HEAD", "OPTIONS"}

  /** `ProjectViewSet.get_permissions`: reading needs a signed-in user,
      every other method also the TEAM role. */
  function ProjectAccess(verb: string, user: Option<User>): (allowed: bool)
    ensures verb in SafeMethods ==> (allowed <==> IsAuthenticated(user))
    ensures verb !in SafeMethods ==> (allowed <==> IsTeam(user))
    ensures allowed ==> IsAuthenticated(user)
  {
    if verb in SafeMethods then IsAuthenticated(user)
    else IsAuthenticated(user) && IsTeam(user)
  }

  // ---------------------------------------------------------------------
  // Requests
  // ---------------------------------------------------------------------

  datatype RequestRow = RequestRow(id: nat, sender: ProfileId, receiver: ProfileId)

  /** The requests `me` sent or received, in table order. */
  function RequestsOf(me: ProfileId, requests: seq<RequestRow>): (r: seq<RequestRow>)
    ensures forall q :: q in r <==> q in requests && (q.sender == me || q.receiver == me)
    ensures Subsequence(r, requests)
    decreases |requests|
  {
    if |requests| == 0 then []
    else
      var rest := RequestsOf(me, requests[1..]);
      SubsequenceTail(rest, requests);
      assert forall q :: q in requests <==> q == requests[0] || q in requests[1..];
      if requests[0].sender == me || requests[0].receiver == me then [requests[0]] + rest else rest
  }

  /** `RequestViewSet.get_queryset`. `me` is None for a user without a
      profile, whose `request.user.profile` raises (a 500, given as None
      here); otherwise the requests the user sent or received. */
  function VisibleRequests(me: Option<ProfileId>, requests: seq<RequestRow>): (r: Option<seq<RequestRow>>)
    ensures r.None? <==> me.None?
    ensures r.Some? ==> forall q :: q in r.value <==> q in requests && (q.sender == me.value || q.receiver == me.value)
    ensures r.Some? ==> Subsequence(r.value, requests) && |r.value| <= |requests|
  {
    if me.None? then None
    else
      var r := RequestsOf(me.value, requests);
      SubsequenceLength(r, requests);
      Some(r)
  }

  // ---------------------------------------------------------------------
  // Chat threads: `ensure`
  // ---------------------------------------------------------------------

  datatype Thread = Thread(id: nat, a: ProfileId, b: ProfileId)

  /** The thread is between `x` and `y`, in either orientation. */
  predicate Connects(t: Thread, x: ProfileId, y: ProfileId) {
    (t.a == x && t.b == y) || (t.a == y && t.b == x)
  }

  /** `.first()` of the pair query: the first such thread in table order. */
  function FindThread(threads: seq<Thread>, x: ProfileId, y: ProfileId): (r: Option<nat>)
    ensures r.Some? ==> r.value < |threads| && Connects(threads[r.value], x, y)
    ensures r.Some? ==> forall j :: 0 <= j < r.value ==> !Connects(threads[j], x, y)
    ensures r.None? <==> forall j :: 0 <= j < |threads| ==> !Connects(threads[j], x, y)
    decreases |threads|
  {
    if |threads| == 0 then None
    else if Connects(threads[0], x, y) then Some(0)
    else
      var rest := FindThread(threads[1..], x, y);
      assert forall j :: 1 <= j < |threads| ==> threads[j] == threads[1..][j - 1];
      if rest.None? then None else Some(rest.value + 1)
  }

  /** An id no thread of the table carries. */
  function FreshId(threads: seq<Thread>): (id: nat)
    ensures forall j :: 0 <= j < |threads| ==> threads[j].id < id
    decreases |threads|
  {
    if |threads| == 0 then 1
    else
      var rest := FreshId(threads[..|threads| - 1]);
      var last := threads[|threads| - 1].id;
      if last < rest then rest else last + 1
  }

  /** The `profile_id` of the request body: missing, a value the id field
      accepts as a number, or one it cannot convert. */
  datatype IdParam = Absent | Number(n: int) | NotANumber

  /** 404, an unhandled exception (a 500), or the thread and the table. */
  datatype EnsureResult = NotFound | ServerError | Thread_(thread: Thread, threads: seq<Thread>)

  /** `ChatThreadViewSet.ensure`. `me` is None for a user without a
      profile, whose `request.user.profile` raises; a `profile_id` the id
      field cannot convert raises ValueError inside `get_object_or_404`.
      Otherwise 404 unless the other profile exists, then the existing
      thread of the pair, or a new one from me to the other appended to
      the table. */
  function Ensure(threads: seq<Thread>, profiles: set<ProfileId>, me: Option<ProfileId>, other: IdParam): (r: EnsureResult)
    ensures r.ServerError? <==> me.None? || other.NotANumber?
    ensures r.NotFound? <==> me.Some? && (other.Absent? || (other.Number? && other.n !in profiles))
    ensures r.Thread_? ==> me.Some? && other.Number? && other.n in profiles && Connects(r.thread, me.value, other.n)
    ensures r.Thread_? && FindThread(threads, me.value, other.n).Some? ==>
              r.threads == threads && r.thread == threads[FindThread(threads, me.value, other.n).value]
    ensures r.Thread_? && FindThread(threads, me.value, other.n).None? ==>
              r.threads == threads + [r.thread] && r.thread.a == me.value && r.thread.b == other.n &&
              forall j :: 0 <= j < |threads| ==> threads[j].id != r.thread.id
  {
    if me.None? then ServerError
    else match other
      case NotANumber => ServerError
      case Absent => NotFound
      case Number(n) =>
        if n !in profiles then NotFound
        else
          var o: ProfileId := n;
          match FindThread(threads, me.value, o)
          case Some(i) => Thread_(threads[i], threads)
          case None =>
            var t := Thread(FreshId(threads), me.value, o);
            Thread_(t, threads + [t])
  }

  /** The pair query finds the same first thread from either side. */
  lemma FindThreadSymmetric(threads: seq<Thread>, x: ProfileId, y: ProfileId)
    ensures FindThread(threads, x, y) == FindThread(threads, y, x)
  {
    assert forall t :: Connects(t, x, y) <==> Connects(t, y, x);
  }

  /** A repeated `ensure`, from either side, returns the same thread and
      creates nothing. */
  lemma EnsureIdempotent(threads: seq<Thread>, profiles: set<ProfileId>, me: ProfileId, other: ProfileId)
    requires other in profiles && me in profiles
    ensures var r := Ensure(threads, profiles, Some(me), Number(other));
            r.Thread_? &&
            Ensure(r.threads, profiles, Some(me), Number(other)) == r &&
            Ensure(r.threads, profiles, Some(other), Number(me)) == r
  {
    var r := Ensure(threads, profiles, Some(me), Number(other));
    FindThreadSymmetric(r.threads, me, other);
    if FindThread(threads, me, other).None? {
      var i := FindThread(r.threads, me, other);
      assert r.threads[|threads|] == r.thread;
      assert i == Some(|threads|) by {
        forall j | 0 <= j < |threads| ensures !Connects(r.threads[j], me, other) {
          assert r.threads[j] == threads[j];
        }
      }
    } else {
      assert FindThread(r.threads, me, other) == FindThread(threads, me, other);
    }
  }

  // ---------------------------------------------------------------------
  // stats: role counts
  // ---------------------------------------------------------------------

  /** One row of the annotated role query: a role key and its profile count. */
  datatype RoleCount = RoleCount(key: string, count: nat)

  /** Every ROLE_CHOICES key at 0. */
  function ZeroCounts(): (m: map<string, nat>)
    ensures forall k :: k in m <==> k in RoleKeys
    ensures forall k :: k in m ==> m[k] == 0
  {
    map k | k in RoleKeys :: 0
  }

  /** The loop of `stats`: every row overwrites the count of its key. */
  function RoleCounts(rows: seq<RoleCount>): (m: map<string, nat>)
    ensures forall k :: k in m <==> k in RoleKeys || exists i :: 0 <= i < |rows| && rows[i].key == k
    decreases |rows|
  {
    if |rows| == 0 then ZeroCounts()
    else
      var init := rows[..|rows| - 1];
      var last := rows[|rows| - 1];
      assert forall i :: 0 <= i < |init| ==> init[i] == rows[i];
      RoleCounts(init)[last.key := last.count]
  }

  /** The last row of a key decides its count. */
  lemma {:induction false} RoleCountsLastRowWins(rows: seq<RoleCount>, i: nat)
    requires i < |rows|
    requires forall j :: i < j < |rows| ==> rows[j].key != rows[i].key
    ensures rows[i].key in RoleCounts(rows) && RoleCounts(rows)[rows[i].key] == rows[i].count
    decreases |rows|
  {
    if i < |rows| - 1 {
      var init := rows[..|rows| - 1];
      assert init[i] == rows[i];
      RoleCountsLastRowWins(init, i);
      assert rows[|rows| - 1].key != rows[i].key;
    }
  }

  /** A ROLE_CHOICES key without a row is reported as 0. */
  lemma {:induction false} RoleCountsZeroWithoutRow(rows: seq<RoleCount>, k: string)
    requires k in RoleKeys
    requires forall i :: 0 <= i < |rows| ==> rows[i].key != k
    ensures k in RoleCounts(rows) && RoleCounts(rows)[k] == 0
    decreases |rows|
  {
    if |rows| > 0 {
      var init := rows[..|rows| - 1];
      assert forall i :: 0 <= i < |init| ==> init[i] == rows[i];
      RoleCountsZeroWithoutRow(init, k);
    }
  }

  /** With role keys unique, as the table declares, every ROLE_CHOICES key
      is reported and the count of a key is that of its row. */
  lemma RoleCountsOfUniqueKeys(rows: seq<RoleCount>, k: string)
    requires forall i, j :: 0 <= i < j < |rows| ==> rows[i].key != rows[j].key
    ensures k in RoleKeys ==> k in RoleCounts(rows)
    ensures forall i :: 0 <= i < |rows| && rows[i].key == k ==> RoleCounts(rows)[k] == rows[i].count
  {
    forall i | 0 <= i < |rows| && rows[i].key == k
      ensures RoleCounts(rows)[k] == rows[i].count
    {
      RoleCountsLastRowWins(rows, i);
    }
  }

  // ---------------------------------------------------------------------
  // register
  // ---------------------------------------------------------------------

  /** The fields `register` reads from the request body. */
  datatype RegisterData = RegisterData(username: Option<string>, email: Option<string>,
                                       password: Option<string>, roles: seq<string>)

  datatype RegisterResponse =
    | BadRequest(error: string)
    | Registered(username: string, name: string, roles: seq<Role>)

  const MissingCredentials: string := "username & password required"
  const UsernameTaken: string := "Username vergeben"

  /** A truthy string: present and not empty. */
  predicate Truthy(s: Option<string>) {
    s.Some? && s.value != ""
  }

  /** The roles of the table whose key was asked for, in table order. */
  function RolesWithKeys(table: seq<Role>, keys: seq<string>): (r: seq<Role>)
    ensures forall x :: x in r <==> x in table && x.key in keys
    decreases |table|
  {
    if |table| == 0 then []
    else
      var rest := RolesWithKeys(table[1..], keys);
      assert forall x :: x in table <==> x == table[0] || x in table[1..];
      if table[0].key in keys then [table[0]] + rest else rest
  }

  /** `register`: 400 without a username or password, 400 for a taken
      username, otherwise the user is added and its profile named after it
      receives the requested roles. */
  function Register(data: RegisterData, users: set<string>, roleTable: seq<Role>)
    : (r: (RegisterResponse, set<string>))
    ensures !Truthy(data.username) || !Truthy(data.password) ==> r == (BadRequest(MissingCredentials), users)
    ensures Truthy(data.username) && Truthy(data.password) && data.username.value in users ==>
              r == (BadRequest(UsernameTaken), users)
    ensures r.0.Registered? <==> Truthy(data.username) && Truthy(data.password) && data.username.value !in users
    ensures r.0.Registered? ==>
              r.1 == users + {data.username.value} && r.0.username == data.username.value &&
              r.0.name == data.username.value &&
              forall x :: x in r.0.roles <==> x in roleTable && x.key in data.roles
    ensures r.0.BadRequest? ==> r.1 == users
  {
    if !Truthy(data.username) || !Truthy(data.password) then (BadRequest(MissingCredentials), users)
    else if data.username.value in users then (BadRequest(UsernameTaken), users)
    else
      var name := data.username.value;
      (Registered(name, name, if data.roles != [] then RolesWithKeys(roleTable, data.roles) else []),
       users + {name})
  }

  /** A username registers once: the same body sent again is refused. */
  lemma RegisterOnce(data: RegisterData, users: set<string>, roleTable: seq<Role>)
    requires Register(data, users, roleTable).0.Registered?
    ensures Register(data, Register(data, users, roleTable).1, roleTable).0 == BadRequest(UsernameTaken)
  {
  }
}
