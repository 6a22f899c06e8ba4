/** Workload scoring and the lowest-score pick of core/assignment.py.
    A score is computed from an explicit snapshot of tasks and projects
    instead of database queries. */
module Assignment {
  import opened Common
  import opened Roles

  /** TASK_PRIORITY_SCORE: the weight of each known priority key. */
  const PriorityScore: map<string, int> := map["LOW" := 1, "MEDIUM" := 1, "HIGH" := 2, "CRITICAL" := 3]

  /** The flat weight of a project a member participates in or owns. */
  const ProjectPoints: int := 2

  const DONE: string := "DONE"

  /** The fields of a task that scoring reads. */
  datatype Task = Task(priority: string, status: string, archived: bool, assignees: set<ProfileId>)

  /** The fields of a project that scoring reads. */
  datatype Project = Project(archived: bool, participants: set<ProfileId>, owners: set<ProfileId>)

  /** `TASK_PRIORITY_SCORE.get(priority, 1)`: an unknown key weighs as LOW. */
  function PriorityPoints(priority: string): (points: int)
    ensures 1 <= points <= 3
    ensures priority !in PriorityScore ==> points == 1
    ensures points == 1 <==> priority != "HIGH" && priority != "CRITICAL"
  {
    if priority in PriorityScore then PriorityScore[priority] else 1
  }

  /** Tasks that count: not archived and not DONE. */
  predicate IsOpen(t: Task) {
    !t.archived && t.status != DONE
  }

  /** What one task adds to the score of member `m`. */
  function TaskPoints(m: ProfileId): Task -> int {
    (t: Task) => if IsOpen(t) && m in t.assignees then PriorityPoints(t.priority) else 0
  }

  /** What one project adds to the score of member `m`: participants and
      owners form one set, so a member who is both is counted once. */
  function ProjectShare(m: ProfileId): Project -> int {
    (p: Project) => if !p.archived && m in p.participants + p.owners then ProjectPoints else 0
  }

  function TaskLoad(m: ProfileId, tasks: seq<Task>): int {
    Sum(tasks, TaskPoints(m))
  }

  function ProjectLoad(m: ProfileId, projects: seq<Project>): int {
    Sum(projects, ProjectShare(m))
  }

  /** The workload of `m`: priority weights of its open tasks plus 2 per
      live project it belongs to. */
  function TeamScore(m: ProfileId, tasks: seq<Task>, projects: seq<Project>): int {
    TaskLoad(m, tasks) + ProjectLoad(m, projects)
  }

  /** Reference definition of the score map: exactly one entry per pool
      member, and nobody else. */
  function ScoreMap(team: seq<ProfileId>, tasks: seq<Task>, projects: seq<Project>): map<ProfileId, int> {
    map m | m in team :: TeamScore(m, tasks, projects)
  }

  lemma {:induction false} SumNonNegative<T>(s: seq<T>, f: T -> int)
    requires forall x :: f(x) >= 0
    ensures Sum(s, f) >= 0
    decreases |s|
  {
    if |s| > 0 {
      SumNonNegative(s[..|s| - 1], f);
    }
  }

  /** Scores are never negative. */
  lemma TeamScoreNonNegative(m: ProfileId, tasks: seq<Task>, projects: seq<Project>)
    ensures TeamScore(m, tasks, projects) >= 0
  {
    SumNonNegative(tasks, TaskPoints(m));
    SumNonNegative(projects, ProjectShare(m));
  }

  /** A score does not depend on the order in which the snapshot lists the
      tasks or the projects. */
  lemma ScoreOrderIndependent(m: ProfileId, tasks: seq<Task>, tasks': seq<Task>,
                              projects: seq<Project>, projects': seq<Project>)
    requires multiset(tasks) == multiset(tasks')
    requires multiset(projects) == multiset(projects')
    ensures TeamScore(m, tasks, projects) == TeamScore(m, tasks', projects')
  {
    SumPermutation(tasks, tasks', TaskPoints(m));
    SumPermutation(projects, projects', ProjectShare(m));
  }

  /** Adds `points` to every member of `members` that has an entry in
      `scores` (the inner loops of compute_team_scores). */
  method AddToMembers(scores: map<ProfileId, int>, members: set<ProfileId>, points: int)
    returns (scores': map<ProfileId, int>)
    ensures scores'.Keys == scores.Keys
    ensures forall m :: m in scores ==> scores'[m] == scores[m] + (if m in members then points else 0)
  {
    scores' := scores;
    var rest := members;
    while rest != {}
      invariant rest <= members
      invariant scores'.Keys == scores.Keys
      invariant forall m :: m in scores ==> scores'[m] == scores[m] + (if m in members - rest then points else 0)
      decreases rest
    {
      var a :| a in rest;
      if a in scores' {
        scores' := scores'[a := scores'[a] + points];
      }
      rest := rest - {a};
    }
  }

  /** The task loop of compute_team_scores: each open task adds its
      priority weight to those of its assignees that have an entry. */
  method AddTaskWeights(scores: map<ProfileId, int>, tasks: seq<Task>) returns (scores': map<ProfileId, int>)
    ensures scores'.Keys == scores.Keys
    ensures forall m :: m in scores ==> scores'[m] == scores[m] + TaskLoad(m, tasks)
  {
    scores' := scores;
    var i := 0;
    assert tasks[..0] == [];
    while i < |tasks|
      invariant 0 <= i <= |tasks|
      invariant scores'.Keys == scores.Keys
      invariant forall m :: m in scores ==> scores'[m] == scores[m] + TaskLoad(m, tasks[..i])
    {
      var task := tasks[i];
      assert tasks[..i + 1] == tasks[..i] + [task];
      forall m | m in scores
        ensures TaskLoad(m, tasks[..i + 1]) == TaskLoad(m, tasks[..i]) + TaskPoints(m)(task)
      {
        SumAppend(tasks[..i], [task], TaskPoints(m));
        SumSingleton(task, TaskPoints(m));
      }
      ghost var before := scores';
      if IsOpen(task) {
        scores' := AddToMembers(scores', task.assignees, PriorityPoints(task.priority));
      }
      assert forall m :: m in scores ==> scores'[m] == before[m] + TaskPoints(m)(task);
      i := i + 1;
    }
    assert tasks[..|tasks|] == tasks;
  }

  /** The project loop of compute_team_scores: each live project adds 2 to
      those of its participants and owners that have an entry. */
  method AddProjectWeights(scores: map<ProfileId, int>, projects: seq<Project>) returns (scores': map<ProfileId, int>)
    ensures scores'.Keys == scores.Keys
    ensures forall m :: m in scores ==> scores'[m] == scores[m] + ProjectLoad(m, projects)
  {
    scores' := scores;
    var j := 0;
    assert projects[..0] == [];
    while j < |projects|
      invariant 0 <= j <= |projects|
      invariant scores'.Keys == scores.Keys
      invariant forall m :: m in scores ==> scores'[m] == scores[m] + ProjectLoad(m, projects[..j])
    {
      var project := projects[j];
      assert projects[..j + 1] == projects[..j] + [project];
      forall m | m in scores
        ensures ProjectLoad(m, projects[..j + 1]) == ProjectLoad(m, projects[..j]) + ProjectShare(m)(project)
      {
        SumAppend(projects[..j], [project], ProjectShare(m));
        SumSingleton(project, ProjectShare(m));
      }
      ghost var before := scores';
      if !project.archived {
        scores' := AddToMembers(scores', project.participants + project.owners, ProjectPoints);
      }
      assert forall m :: m in scores ==> scores'[m] == before[m] + ProjectShare(m)(project);
      j := j + 1;
    }
    assert projects[..|projects|] == projects;
  }

  /** compute_team_scores: every pool member starts at 0 and receives the
      weights of its open tasks and live projects; ids outside the pool
      receive nothing, and an empty pool returns the empty map at once. */
  method ComputeTeamScores(team: seq<ProfileId>, tasks: seq<Task>, projects: seq<Project>)
    returns (scores: map<ProfileId, int>)
    ensures scores == ScoreMap(team, tasks, projects)
  {
    scores := map m | m in team :: 0;
    if |scores| == 0 {
      return;
    }
    var zero := scores;
    scores := AddTaskWeights(scores, tasks);
    scores := AddProjectWeights(scores, projects);
    assert forall m :: m in scores ==> scores[m] == zero[m] + TeamScore(m, tasks, projects);
  }

  /** Member `a` comes no later than `b` in the (score, id) order. */
  predicate ScoreIdAtMost(scores: map<ProfileId, int>, a: ProfileId, b: ProfileId)
    requires a in scores && b in scores
  {
    scores[a] < scores[b] || (scores[a] == scores[b] && a <= b)
  }

  /** `r` is the (score, id)-minimal key of `scores`. */
  predicate IsLowest(scores: map<ProfileId, int>, r: ProfileId) {
    r in scores && forall k :: k in scores ==> ScoreIdAtMost(scores, r, k)
  }

  /** The (score, id) order is total on ids, so at most one member is lowest:
      the pick does not depend on how the map is iterated. */
  lemma LowestIsUnique(scores: map<ProfileId, int>, a: ProfileId, b: ProfileId)
    requires IsLowest(scores, a) && IsLowest(scores, b)
    ensures a == b
  {
    assert ScoreIdAtMost(scores, a, b) && ScoreIdAtMost(scores, b, a);
  }

  /** pick_lowest_score_member: None for an empty map, otherwise the member
      with the smallest score, ties going to the smallest id. */
  method PickLowestScoreMember(scores: map<ProfileId, int>) returns (r: Option<ProfileId>)
    ensures r.None? <==> |scores| == 0
    ensures r.Some? ==> IsLowest(scores, r.value)
  {
    if |scores| == 0 {
      return None;
    }
    var rest := scores.Keys;
    var best :| best in rest;
    rest := rest - {best};
    while rest != {}
      invariant rest <= scores.Keys
      invariant best in scores
      invariant forall k :: k in scores && k !in rest ==> ScoreIdAtMost(scores, best, k)
      decreases rest
    {
      var k :| k in rest;
      if scores[k] < scores[best] || (scores[k] == scores[best] && k < best) {
        best := k;
      }
      rest := rest - {k};
    }
    return Some(best);
  }

  /** assign_task_for_review: with an empty TEAM pool nothing happens;
      otherwise the lowest scorer of the whole snapshot is added to the
      task's assignees (a set, so adding is a no-op when already present). */
  method AssignTaskForReview(profiles: seq<Profile>, tasks: seq<Task>, projects: seq<Project>, task: Task)
    returns (target: Option<ProfileId>, updated: Task)
    ensures target.None? <==> |TeamPool(profiles)| == 0
    ensures target.None? ==> updated == task
    ensures target.Some? ==> target.value in TeamPool(profiles)
    ensures target.Some? ==> IsLowest(ScoreMap(TeamPool(profiles), tasks, projects), target.value)
    ensures target.Some? ==> updated == task.(assignees := task.assignees + {target.value})
    ensures task.assignees <= updated.assignees
  {
    var team := TeamPool(profiles);
    if |team| == 0 {
      return None, task;
    }
    var scores := ComputeTeamScores(team, tasks, projects);
    assert team[0] in scores;
    target := PickLowestScoreMember(scores);
    updated := task.(assignees := task.assignees + {target.value});
  }
}
