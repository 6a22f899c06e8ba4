/** rebalance_growpro_assignments of core/assignment.py: orphaned pending
    goals are handed out greedily, earliest due first, to the lowest scorer;
    then at most 2 x (pending goals) moves shift the least urgent goal of the
    most loaded member to the least loaded one while the gap exceeds 2.
    The database rows become an explicit list of goals, returned updated. */
module Rebalance {
  import opened Common
  import opened Roles
  import opened Assignment

  datatype GoalStatus = Active | OnHold | Done | Archived

  /** A growth goal: `due` None is a goal without due date. */
  datatype Goal = Goal(id: nat, status: GoalStatus, assignee: Option<ProfileId>, due: Option<int>, created: int)

  /** The updated goal list and the two counters the source returns. */
  datatype RebalanceResult = RebalanceResult(goals: seq<Goal>, assignedCount: nat, rebalancedCount: nat)

  /** Only ACTIVE and ON_HOLD goals take part in rebalancing. */
  predicate IsPending(g: Goal) {
    g.status == Active || g.status == OnHold
  }

  /** `g` is a pending goal assigned to `m`. */
  predicate HeldBy(g: Goal, m: ProfileId) {
    IsPending(g) && g.assignee == Some(m)
  }

  /** A pending goal whose assignee is missing or not in the pool. */
  predicate IsOrphan(g: Goal, team: seq<ProfileId>) {
    IsPending(g) && !(g.assignee.Some? && g.assignee.value in team)
  }

  /** Every pending goal is assigned to a pool member. */
  predicate AllPendingHeld(team: seq<ProfileId>, goals: seq<Goal>) {
    forall i :: 0 <= i < |goals| && IsPending(goals[i]) ==>
      goals[i].assignee.Some? && goals[i].assignee.value in team
  }

  /** `m` holds no pending goal. */
  predicate NoneHeldBy(goals: seq<Goal>, m: ProfileId) {
    forall i :: 0 <= i < |goals| ==> !HeldBy(goals[i], m)
  }

  function TeamSet(team: seq<ProfileId>): set<ProfileId> {
    set m | m in team
  }

  function OrphanSet(team: seq<ProfileId>, goals: seq<Goal>): set<int> {
    set i | 0 <= i < |goals| && IsOrphan(goals[i], team)
  }

  function PendingOne(g: Goal): int {
    if IsPending(g) then 1 else 0
  }

  /** The number of ACTIVE/ON_HOLD goals (`len(goals)` in the source). */
  function PendingCount(goals: seq<Goal>): int {
    Sum(goals, PendingOne)
  }

  function HeldIndicator(m: ProfileId): Goal -> int {
    (g: Goal) => if HeldBy(g, m) then 1 else 0
  }

  /** The number of pending goals assigned to `m`. */
  function Held(m: ProfileId, goals: seq<Goal>): int {
    Sum(goals, HeldIndicator(m))
  }

  /** The score of the design: task and project load plus 1 per pending
      goal held. */
  function GoalScores(team: seq<ProfileId>, tasks: seq<Task>, projects: seq<Project>, goals: seq<Goal>)
    : (s: map<ProfileId, int>)
    ensures s.Keys == TeamSet(team)
  {
    map m | m in team :: TeamScore(m, tasks, projects) + Held(m, goals)
  }

  function Lookup(s: map<ProfileId, int>): ProfileId -> int {
    (m: ProfileId) => if m in s then s[m] else 0
  }

  /** Sum of the scores of the pool members. */
  function ScoreTotal(team: seq<ProfileId>, s: map<ProfileId, int>): int {
    Sum(team, Lookup(s))
  }

  // ---------------------------------------------------------------------
  // Urgency order: (due date, missing last; then creation time)

  /** The key `(due_date or date.max, created_at)` of `a` is strictly below
      that of `b`; a missing due date sorts after every date. */
  predicate KeyLess(a: Goal, b: Goal) {
    || (a.due.Some? && (b.due.None? || a.due.value < b.due.value))
    || (a.due == b.due && a.created < b.created)
  }

  /** The facts about the key order that the selection loops use: it is a
      strict weak order. */
  lemma KeyOrder(a: Goal, b: Goal, c: Goal)
    ensures !KeyLess(a, a)
    ensures KeyLess(a, b) ==> !KeyLess(b, a)
    ensures KeyLess(a, b) && !KeyLess(c, b) ==> KeyLess(a, c)
    ensures !KeyLess(b, a) && KeyLess(b, c) ==> KeyLess(a, c)
  {
  }

  /** Position `i` comes before position `j` in Python's stable ascending
      sort of the goals by key. */
  predicate SortsBefore(goals: seq<Goal>, i: int, j: int)
    requires 0 <= i < |goals| && 0 <= j < |goals|
  {
    KeyLess(goals[i], goals[j]) || (!KeyLess(goals[j], goals[i]) && i < j)
  }

  // ---------------------------------------------------------------------
  // Picks of the equalisation loop

  /** `max(scores, key=scores.get)`: the position of the first pool member,
      in pool order, whose score is maximal. */
  function FirstMax(team: seq<ProfileId>, s: map<ProfileId, int>): (i: nat)
    requires |team| > 0
    requires forall m :: m in team ==> m in s
    ensures i < |team|
    ensures forall j :: 0 <= j < |team| ==> s[team[j]] <= s[team[i]]
    ensures forall j :: 0 <= j < i ==> s[team[j]] < s[team[i]]
    decreases |team|
  {
    if |team| == 1 then 0
    else
      var k := FirstMax(team[1..], s) + 1;
      if s[team[0]] >= s[team[k]] then 0 else k
  }

  /** `min(scores, key=scores.get)`: the position of the first pool member,
      in pool order, whose score is minimal. */
  function FirstMin(team: seq<ProfileId>, s: map<ProfileId, int>): (i: nat)
    requires |team| > 0
    requires forall m :: m in team ==> m in s
    ensures i < |team|
    ensures forall j :: 0 <= j < |team| ==> s[team[i]] <= s[team[j]]
    ensures forall j :: 0 <= j < i ==> s[team[i]] < s[team[j]]
    decreases |team|
  {
    if |team| == 1 then 0
    else
      var k := FirstMin(team[1..], s) + 1;
      if s[team[0]] <= s[team[k]] then 0 else k
  }

  /** The spread between the first maximal and the first minimal score. */
  function Gap(team: seq<ProfileId>, s: map<ProfileId, int>): int
    requires |team| > 0
    requires forall m :: m in team ==> m in s
  {
    s[team[FirstMax(team, s)]] - s[team[FirstMin(team, s)]]
  }

  /** Position `c` holds the goal the source moves away from `m`: among the
      pending goals of `m` it has the greatest key, and it is the first such
      in list order (Python's reverse sort is stable). */
  predicate IsLatestHeld(goals: seq<Goal>, m: ProfileId, c: int) {
    && 0 <= c < |goals|
    && HeldBy(goals[c], m)
    && forall j :: 0 <= j < |goals| && HeldBy(goals[j], m) ==>
         !KeyLess(goals[c], goals[j]) && (j < c ==> KeyLess(goals[j], goals[c]))
  }

  /** `candidates.sort(key=..., reverse=True)[0]`, or None when `m` holds no
      pending goal: scanning from the front, a later goal replaces the
      current pick only with a strictly greater key. */
  function LatestHeldGoal(goals: seq<Goal>, m: ProfileId): (c: Option<int>)
    ensures c.None? <==> NoneHeldBy(goals, m)
    ensures c.Some? ==> IsLatestHeld(goals, m, c.value)
    decreases |goals|
  {
    if |goals| == 0 then None
    else
      var init := goals[..|goals| - 1];
      var i := |goals| - 1;
      var best := LatestHeldGoal(init, m);
      assert forall j :: 0 <= j < i ==> goals[j] == init[j];
      if HeldBy(goals[i], m) && (best.None? || KeyLess(goals[best.value], goals[i])) then
        LatestLast(goals, m, best);
        Some(i)
      else
        best
  }

  /** The last goal, when it is held and beats the pick of the others,
      is the pick of all. */
  lemma LatestLast(goals: seq<Goal>, m: ProfileId, best: Option<int>)
    requires |goals| > 0 && HeldBy(goals[|goals| - 1], m)
    requires best.None? <==> NoneHeldBy(goals[..|goals| - 1], m)
    requires best.Some? ==> IsLatestHeld(goals[..|goals| - 1], m, best.value) &&
                            KeyLess(goals[best.value], goals[|goals| - 1])
    ensures IsLatestHeld(goals, m, |goals| - 1)
  {
    var init := goals[..|goals| - 1];
    var i := |goals| - 1;
    forall j | 0 <= j < i && HeldBy(goals[j], m)
      ensures !KeyLess(goals[i], goals[j]) && KeyLess(goals[j], goals[i])
    {
      assert init[j] == goals[j];
      assert !NoneHeldBy(init, m);
      KeyOrder(goals[j], goals[best.value], goals[i]);
      KeyOrder(goals[i], goals[j], goals[j]);
    }
    KeyOrder(goals[i], goals[i], goals[i]);
  }

  /** The earliest-sorting position of `cands` under the stable ascending
      key order. */
  method EarliestOrphan(goals: seq<Goal>, cands: set<int>) returns (x: int)
    requires cands != {}
    requires forall i :: i in cands ==> 0 <= i < |goals|
    ensures x in cands
    ensures forall y :: y in cands && y != x ==> SortsBefore(goals, x, y)
  {
    var best: Option<int> := None;
    var i := 0;
    while i < |goals|
      invariant 0 <= i <= |goals|
      invariant best.None? ==> forall j :: 0 <= j < i ==> j !in cands
      invariant best.Some? ==> 0 <= best.value < i && best.value in cands
      invariant best.Some? ==> forall j :: 0 <= j < i && j in cands && j != best.value ==>
                  SortsBefore(goals, best.value, j)
    {
      if i in cands {
        if best.None? {
          best := Some(i);
        } else if KeyLess(goals[i], goals[best.value]) {
          forall j | 0 <= j < i && j in cands && j != best.value
            ensures KeyLess(goals[i], goals[j])
          {
            KeyOrder(goals[i], goals[best.value], goals[j]);
            KeyOrder(goals[j], goals[best.value], goals[best.value]);
          }
          best := Some(i);
        }
      }
      i := i + 1;
    }
    assert best.Some? by {
      var y :| y in cands;
    }
    x := best.value;
  }

  // ---------------------------------------------------------------------
  // Phase 1 bookkeeping

  /** How many of the goals at positions `idx` are assigned to `m`. */
  function AssignedAt(m: ProfileId, goals: seq<Goal>, idx: seq<int>): int
    requires forall k :: 0 <= k < |idx| ==> 0 <= idx[k] < |goals|
  {
    if |idx| == 0 then 0
    else AssignedAt(m, goals, idx[..|idx| - 1]) + (if goals[idx[|idx| - 1]].assignee == Some(m) then 1 else 0)
  }

  /** The running score of `m` in phase 1 once the goals at positions `idx`
      have been assigned: each assignment adds 1 to its member. */
  function RunScore(scores: map<ProfileId, int>, goals: seq<Goal>, idx: seq<int>, m: ProfileId): int
    requires forall k :: 0 <= k < |idx| ==> 0 <= idx[k] < |goals|
    requires m in scores
  {
    scores[m] + AssignedAt(m, goals, idx)
  }

  /** `r` is the (score, id)-lowest member of the running scores after the
      assignments at `idx`: the pick of `pick_lowest_score_member` at that
      moment. */
  predicate LowestAfter(scores: map<ProfileId, int>, goals: seq<Goal>, idx: seq<int>, r: ProfileId)
    requires forall k :: 0 <= k < |idx| ==> 0 <= idx[k] < |goals|
  {
    && r in scores
    && forall m :: m in scores ==>
         RunScore(scores, goals, idx, r) < RunScore(scores, goals, idx, m)
         || (RunScore(scores, goals, idx, r) == RunScore(scores, goals, idx, m) && r <= m)
  }

  lemma {:induction false} AssignedAtFrame(m: ProfileId, goals: seq<Goal>, idx: seq<int>, x: int, g: Goal)
    requires forall k :: 0 <= k < |idx| ==> 0 <= idx[k] < |goals|
    requires 0 <= x < |goals| && x !in idx
    ensures AssignedAt(m, goals[x := g], idx) == AssignedAt(m, goals, idx)
    decreases |idx|
  {
    if |idx| > 0 {
      assert x !in idx[..|idx| - 1];
      AssignedAtFrame(m, goals, idx[..|idx| - 1], x, g);
    }
  }

  /** The +1 of lines 76-78: every pending goal already assigned to a pool
      member adds 1 to that member's score. */
  method AddHeldGoals(scores: map<ProfileId, int>, goals: seq<Goal>) returns (scores': map<ProfileId, int>)
    ensures scores'.Keys == scores.Keys
    ensures forall m :: m in scores ==> scores'[m] == scores[m] + Held(m, goals)
  {
    scores' := scores;
    var i := 0;
    assert goals[..0] == [];
    while i < |goals|
      invariant 0 <= i <= |goals|
      invariant scores'.Keys == scores.Keys
      invariant forall m :: m in scores ==> scores'[m] == scores[m] + Held(m, goals[..i])
    {
      var g := goals[i];
      assert goals[..i + 1] == goals[..i] + [g];
      forall m | m in scores
        ensures Held(m, goals[..i + 1]) == Held(m, goals[..i]) + HeldIndicator(m)(g)
      {
        SumAppend(goals[..i], [g], HeldIndicator(m));
        SumSingleton(g, HeldIndicator(m));
      }
      if IsPending(g) && g.assignee.Some? && g.assignee.value in scores' {
        scores' := scores'[g.assignee.value := scores'[g.assignee.value] + 1];
      }
      i := i + 1;
    }
    assert goals[..|goals|] == goals;
  }

  /** One assignment of phase 1 leaves the earlier picks lowest for their
      moments. */
  lemma LowestAfterFrame(scores: map<ProfileId, int>, goals: seq<Goal>, idx: seq<int>, next: int, g: Goal, r: ProfileId)
    requires forall k :: 0 <= k < |idx| ==> 0 <= idx[k] < |goals|
    requires 0 <= next < |goals| && next !in idx
    requires LowestAfter(scores, goals, idx, r)
    ensures LowestAfter(scores, goals[next := g], idx, r)
  {
    forall m | m in scores
      ensures RunScore(scores, goals[next := g], idx, m) == RunScore(scores, goals, idx, m)
    {
      AssignedAtFrame(m, goals, idx, next, g);
    }
  }

  /** ... and adds 1 to the chosen member only. */
  lemma RunScoreBump(scores: map<ProfileId, int>, goals: seq<Goal>, idx: seq<int>, next: int, target: ProfileId, m: ProfileId)
    requires forall k :: 0 <= k < |idx| ==> 0 <= idx[k] < |goals|
    requires 0 <= next < |goals| && next !in idx
    requires m in scores
    ensures RunScore(scores, goals[next := goals[next].(assignee := Some(target))], idx + [next], m)
            == RunScore(scores, goals, idx, m) + (if m == target then 1 else 0)
  {
    assert (idx + [next])[..|idx|] == idx;
    AssignedAtFrame(m, goals, idx, next, goals[next].(assignee := Some(target)));
  }

  /** Phase-1 bookkeeping of positions: `order` holds the orphans assigned
      so far, in stable sorted order, all before those in `remaining`. */
  ghost predicate OrderInv(team: seq<ProfileId>, goals: seq<Goal>, order: seq<int>, remaining: set<int>) {
    && (forall k :: 0 <= k < |order| ==> 0 <= order[k] < |goals|)
    && remaining <= OrphanSet(team, goals)
    && (forall i :: i in OrphanSet(team, goals) <==> i in order || i in remaining)
    && (forall i :: i in remaining ==> i !in order)
    && |order| + |remaining| == |OrphanSet(team, goals)|
    && (forall a, b :: 0 <= a < b < |order| ==> SortsBefore(goals, order[a], order[b]))
    && (forall a, y :: 0 <= a < |order| && y in remaining ==> SortsBefore(goals, order[a], y))
  }

  /** Only the goals at `order` differ from the snapshot, and only in an
      assignee drawn from the pool. */
  ghost predicate ShapeInv(team: seq<ProfileId>, goals: seq<Goal>, goals': seq<Goal>, order: seq<int>) {
    && |goals'| == |goals|
    && (forall k :: 0 <= k < |order| ==> 0 <= order[k] < |goals|)
    && (forall i :: 0 <= i < |goals| && i !in order ==> goals'[i] == goals[i])
    && (forall k :: 0 <= k < |order| ==>
          && goals'[order[k]].assignee.Some? && goals'[order[k]].assignee.value in team
          && goals'[order[k]] == goals[order[k]].(assignee := goals'[order[k]].assignee))
  }

  /** The running scores are the start scores plus the assignments so far,
      and every assignment went to the lowest scorer of its moment. */
  ghost predicate GreedyInv(scores: map<ProfileId, int>, goals': seq<Goal>, scores': map<ProfileId, int>, order: seq<int>) {
    && (forall k :: 0 <= k < |order| ==> 0 <= order[k] < |goals'|)
    && scores'.Keys == scores.Keys
    && (forall m :: m in scores ==> scores'[m] == RunScore(scores, goals', order, m))
    && (forall k :: 0 <= k < |order| ==>
          goals'[order[k]].assignee.Some? &&
          LowestAfter(scores, goals', order[..k], goals'[order[k]].assignee.value))
  }

  /** Scores track held goals, and the number of pending goals is unchanged. */
  ghost predicate CountInv(scores: map<ProfileId, int>, goals: seq<Goal>, goals': seq<Goal>, scores': map<ProfileId, int>) {
    && scores'.Keys == scores.Keys
    && (forall m :: m in scores ==> scores'[m] == scores[m] + Held(m, goals') - Held(m, goals))
    && PendingCount(goals') == PendingCount(goals)
  }

  lemma Phase1StepOrder(team: seq<ProfileId>, goals: seq<Goal>, order: seq<int>, remaining: set<int>, next: int)
    requires OrderInv(team, goals, order, remaining)
    requires next in remaining
    requires forall y :: y in remaining && y != next ==> SortsBefore(goals, next, y)
    ensures OrderInv(team, goals, order + [next], remaining - {next})
  {
  }

  lemma Phase1StepShape(team: seq<ProfileId>, goals: seq<Goal>, goals': seq<Goal>, order: seq<int>,
                        next: int, target: ProfileId)
    requires ShapeInv(team, goals, goals', order)
    requires 0 <= next < |goals| && next !in order
    requires target in team
    ensures ShapeInv(team, goals, goals'[next := goals'[next].(assignee := Some(target))], order + [next])
  {
  }

  /** The running scores after one more assignment of phase 1. */
  lemma Phase1StepScores(scores: map<ProfileId, int>, goals': seq<Goal>, scores': map<ProfileId, int>,
                         order: seq<int>, next: int, target: ProfileId)
    requires forall k :: 0 <= k < |order| ==> 0 <= order[k] < |goals'|
    requires scores'.Keys == scores.Keys
    requires forall m :: m in scores ==> scores'[m] == RunScore(scores, goals', order, m)
    requires 0 <= next < |goals'| && next !in order
    requires target in scores'
    ensures forall m :: m in scores ==>
              scores'[target := scores'[target] + 1][m]
              == RunScore(scores, goals'[next := goals'[next].(assignee := Some(target))], order + [next], m)
  {
    forall m | m in scores
      ensures scores'[target := scores'[target] + 1][m]
              == RunScore(scores, goals'[next := goals'[next].(assignee := Some(target))], order + [next], m)
    {
      RunScoreBump(scores, goals', order, next, target, m);
    }
  }

  /** The picks of phase 1 stay lowest for their moments after one more
      assignment, which is itself lowest for its moment. */
  lemma Phase1StepPicks(scores: map<ProfileId, int>, goals': seq<Goal>, order: seq<int>, next: int,
                        target: ProfileId)
    requires forall k :: 0 <= k < |order| ==> 0 <= order[k] < |goals'|
    requires forall k :: 0 <= k < |order| ==>
               goals'[order[k]].assignee.Some? &&
               LowestAfter(scores, goals', order[..k], goals'[order[k]].assignee.value)
    requires 0 <= next < |goals'| && next !in order
    requires LowestAfter(scores, goals', order, target)
    ensures var goals2, order2 := goals'[next := goals'[next].(assignee := Some(target))], order + [next];
            forall k :: 0 <= k < |order2| ==>
              goals2[order2[k]].assignee.Some? &&
              LowestAfter(scores, goals2, order2[..k], goals2[order2[k]].assignee.value)
  {
    var g := goals'[next].(assignee := Some(target));
    var goals2 := goals'[next := g];
    var order2 := order + [next];
    forall k | 0 <= k < |order2|
      ensures goals2[order2[k]].assignee.Some?
      ensures LowestAfter(scores, goals2, order2[..k], goals2[order2[k]].assignee.value)
    {
      if k < |order| {
        assert order2[..k] == order[..k];
        assert order2[k] == order[k] && order[k] != next;
        assert next !in order[..k];
        LowestAfterFrame(scores, goals', order[..k], next, g, goals'[order[k]].assignee.value);
      } else {
        assert order2[..k] == order;
        LowestAfterFrame(scores, goals', order, next, g, target);
      }
    }
  }

  lemma Phase1StepGreedy(scores: map<ProfileId, int>, goals': seq<Goal>, scores': map<ProfileId, int>,
                         order: seq<int>, next: int, target: ProfileId)
    requires GreedyInv(scores, goals', scores', order)
    requires 0 <= next < |goals'| && next !in order
    requires IsLowest(scores', target)
    ensures GreedyInv(scores, goals'[next := goals'[next].(assignee := Some(target))],
                      scores'[target := scores'[target] + 1], order + [next])
  {
    Phase1StepScores(scores, goals', scores', order, next, target);
    assert LowestAfter(scores, goals', order, target);
    Phase1StepPicks(scores, goals', order, next, target);
  }

  lemma Phase1StepCounts(team: seq<ProfileId>, scores: map<ProfileId, int>, goals: seq<Goal>,
                         goals': seq<Goal>, scores': map<ProfileId, int>, next: int, target: ProfileId)
    requires CountInv(scores, goals, goals', scores')
    requires 0 <= next < |goals'|
    requires scores.Keys == TeamSet(team) && target in scores
    requires IsOrphan(goals'[next], team)
    ensures CountInv(scores, goals, goals'[next := goals'[next].(assignee := Some(target))],
                     scores'[target := scores'[target] + 1])
  {
    var moved := goals'[next].(assignee := Some(target));
    forall m | m in scores
      ensures Held(m, goals'[next := moved]) == Held(m, goals') + (if m == target then 1 else 0)
    {
      SumUpdate(goals', next, moved, HeldIndicator(m));
    }
    SumUpdate(goals', next, moved, PendingOne);
  }

  /** One round of phase 1: the earliest remaining orphan goes to the
      lowest running scorer. */
  method AssignNext(team: seq<ProfileId>, scores: map<ProfileId, int>, goals: seq<Goal>,
                    goals': seq<Goal>, scores': map<ProfileId, int>, order: seq<int>, remaining: set<int>)
    returns (goals'': seq<Goal>, scores'': map<ProfileId, int>, order': seq<int>, remaining': set<int>)
    requires |team| > 0 && scores.Keys == TeamSet(team)
    requires remaining != {}
    requires OrderInv(team, goals, order, remaining)
    requires ShapeInv(team, goals, goals', order)
    requires GreedyInv(scores, goals', scores', order)
    requires CountInv(scores, goals, goals', scores')
    ensures OrderInv(team, goals, order', remaining')
    ensures ShapeInv(team, goals, goals'', order')
    ensures GreedyInv(scores, goals'', scores'', order')
    ensures CountInv(scores, goals, goals'', scores'')
    ensures |remaining'| < |remaining|
  {
    var next := EarliestOrphan(goals, remaining);
    assert team[0] in scores';
    var pick := PickLowestScoreMember(scores');
    var target := pick.value;
    assert next in OrphanSet(team, goals) && next !in order;
    Phase1StepOrder(team, goals, order, remaining, next);
    Phase1StepShape(team, goals, goals', order, next, target);
    Phase1StepGreedy(scores, goals', scores', order, next, target);
    Phase1StepCounts(team, scores, goals, goals', scores', next, target);
    goals'' := goals'[next := goals'[next].(assignee := Some(target))];
    scores'' := scores'[target := scores'[target] + 1];
    order' := order + [next];
    remaining' := remaining - {next};
  }

  /** Phase 1 as the source runs it from the start scores `scores`:
      `order` lists the orphans of `goals`, each once, in stable urgency
      order; only those goals change, each only in its assignee, which is
      a pool member; and the k-th of them went to the lowest scorer after
      the first k assignments. */
  ghost predicate GreedyPhase1(team: seq<ProfileId>, scores: map<ProfileId, int>, goals: seq<Goal>,
                               goals': seq<Goal>, order: seq<int>) {
    && |goals'| == |goals|
    && (forall k :: 0 <= k < |order| ==> 0 <= order[k] < |goals|)
    && (forall i :: i in OrphanSet(team, goals) <==> i in order)
    && |order| == |OrphanSet(team, goals)|
    && (forall a, b :: 0 <= a < b < |order| ==> SortsBefore(goals, order[a], order[b]))
    && (forall i :: 0 <= i < |goals| && !IsOrphan(goals[i], team) ==> goals'[i] == goals[i])
    && (forall i :: 0 <= i < |goals| && IsOrphan(goals[i], team) ==>
          && goals'[i].assignee.Some? && goals'[i].assignee.value in team
          && goals'[i] == goals[i].(assignee := goals'[i].assignee))
    && (forall k :: 0 <= k < |order| ==>
          goals'[order[k]].assignee.Some? &&
          LowestAfter(scores, goals', order[..k], goals'[order[k]].assignee.value))
  }

  /** Phase 1 (lines 80-91). The orphans are visited in the order of a stable
      ascending sort by (due date, missing last; creation time); each goes to
      the (score, id)-lowest member of the running scores, which then gains 1.
      The source's `break` on a missing target cannot fire: the pool is not
      empty and ids are positive. */
  method AssignOrphans(team: seq<ProfileId>, scores: map<ProfileId, int>, goals: seq<Goal>)
    returns (goals': seq<Goal>, scores': map<ProfileId, int>, order: seq<int>)
    requires |team| > 0
    requires scores.Keys == TeamSet(team)
    ensures |goals'| == |goals| && scores'.Keys == scores.Keys
    // the orphans in stable sorted order, each to the running lowest scorer
    ensures GreedyPhase1(team, scores, goals, goals', order)
    ensures AllPendingHeld(team, goals')
    // each assignment adds 1 to its member's score
    ensures forall m :: m in scores ==> scores'[m] == scores[m] + Held(m, goals') - Held(m, goals)
    ensures PendingCount(goals') == PendingCount(goals)
  {
    goals' := goals;
    scores' := scores;
    order := [];
    var remaining := OrphanSet(team, goals);
    while remaining != {}
      invariant OrderInv(team, goals, order, remaining)
      invariant ShapeInv(team, goals, goals', order)
      invariant GreedyInv(scores, goals', scores', order)
      invariant CountInv(scores, goals, goals', scores')
      decreases |remaining|
    {
      goals', scores', order, remaining := AssignNext(team, scores, goals, goals', scores', order, remaining);
    }
    Phase1Shape(team, goals, goals', order);
  }

  /** Once every orphan is in `order`, only orphans have changed, each now
      held in the pool, so every pending goal is held in the pool. */
  lemma Phase1Shape(team: seq<ProfileId>, goals: seq<Goal>, goals': seq<Goal>, order: seq<int>)
    requires ShapeInv(team, goals, goals', order)
    requires forall i :: i in OrphanSet(team, goals) <==> i in order
    ensures forall i :: 0 <= i < |goals| && !IsOrphan(goals[i], team) ==> goals'[i] == goals[i]
    ensures forall i :: 0 <= i < |goals| && IsOrphan(goals[i], team) ==>
              && goals'[i].assignee.Some? && goals'[i].assignee.value in team
              && goals'[i] == goals[i].(assignee := goals'[i].assignee)
    ensures AllPendingHeld(team, goals')
  {
    forall i | 0 <= i < |goals| && IsOrphan(goals[i], team)
      ensures goals'[i].assignee.Some? && goals'[i].assignee.value in team
      ensures goals'[i] == goals[i].(assignee := goals'[i].assignee)
    {
      assert i in OrphanSet(team, goals);
      var k :| 0 <= k < |order| && order[k] == i;
    }
    forall i | 0 <= i < |goals| && !IsOrphan(goals[i], team)
      ensures goals'[i] == goals[i]
    {
      assert i !in OrphanSet(team, goals);
    }
  }

  // ---------------------------------------------------------------------
  // Phase 2: equalisation

  /** Changing one score by `d` changes the total of a duplicate-free pool
      by `d`. */
  lemma ScoreTotalAdjust(team: seq<ProfileId>, s: map<ProfileId, int>, m: ProfileId, d: int)
    requires Distinct(team)
    requires m in team && m in s
    ensures ScoreTotal(team, s[m := s[m] + d]) == ScoreTotal(team, s) + d
  {
    SumPointChange(team, Lookup(s), Lookup(s[m := s[m] + d]), m);
  }

  /** Reassigning the goal at `c` to `m'` moves one held goal from its
      previous holder to `m'` and leaves everybody else's count alone. */
  lemma HeldMove(goals: seq<Goal>, c: int, m': ProfileId, m: ProfileId)
    requires 0 <= c < |goals| && IsPending(goals[c]) && goals[c].assignee.Some?
    ensures Held(m, goals[c := goals[c].(assignee := Some(m'))])
            == Held(m, goals) - (if goals[c].assignee == Some(m) then 1 else 0) + (if m == m' then 1 else 0)
  {
    SumUpdate(goals, c, goals[c].(assignee := Some(m')), HeldIndicator(m));
  }

  /** One round of the equalisation loop (lines 97-110): find the first
      highest scorer `hi` and the first lowest `lo`; stop (None) when their
      gap is at most 2 or `hi` holds no pending goal; otherwise move the
      least urgent goal of `hi` to `lo` and shift one point with it. */
  function EqualizeStep(team: seq<ProfileId>, scores: map<ProfileId, int>, goals: seq<Goal>)
    : (r: Option<(map<ProfileId, int>, seq<Goal>)>)
    requires |team| > 0
    requires scores.Keys == TeamSet(team)
    ensures var hi := team[FirstMax(team, scores)];
            var lo := team[FirstMin(team, scores)];
            r.None? <==> scores[hi] - scores[lo] <= 2 || NoneHeldBy(goals, hi)
    ensures var hi := team[FirstMax(team, scores)];
            var lo := team[FirstMin(team, scores)];
            r.Some? ==> hi != lo && r.value.0 == scores[hi := scores[hi] - 1][lo := scores[lo] + 1]
    ensures var hi := team[FirstMax(team, scores)];
            var lo := team[FirstMin(team, scores)];
            r.Some? ==> && LatestHeldGoal(goals, hi).Some?
                        && var c := LatestHeldGoal(goals, hi).value;
                           r.value.1 == goals[c := goals[c].(assignee := Some(lo))]
    ensures r.Some? ==> r.value.0.Keys == scores.Keys
  {
    var hi := team[FirstMax(team, scores)];
    var lo := team[FirstMin(team, scores)];
    if scores[hi] - scores[lo] <= 2 then None
    else match LatestHeldGoal(goals, hi)
      case None => None
      case Some(c) => Some((scores[hi := scores[hi] - 1][lo := scores[lo] + 1], goals[c := goals[c].(assignee := Some(lo))]))
  }

  /** `n` rounds of EqualizeStep one after the other, or None when one of
      them stops the loop. */
  function Rounds(team: seq<ProfileId>, scores: map<ProfileId, int>, goals: seq<Goal>, n: nat)
    : (r: Option<(map<ProfileId, int>, seq<Goal>)>)
    requires |team| > 0
    requires scores.Keys == TeamSet(team)
    ensures r.Some? ==> r.value.0.Keys == scores.Keys
    decreases n
  {
    if n == 0 then Some((scores, goals))
    else match Rounds(team, scores, goals, n - 1)
      case None => None
      case Some(p) => EqualizeStep(team, p.0, p.1)
  }

  /** Only assignees of pending goals differ between `goals` and `goals'`. */
  ghost predicate OnlyPendingReassigned(goals: seq<Goal>, goals': seq<Goal>) {
    && |goals'| == |goals|
    && (forall i :: 0 <= i < |goals| ==> goals'[i] == goals[i].(assignee := goals'[i].assignee))
    && (forall i :: 0 <= i < |goals| && !IsPending(goals[i]) ==> goals'[i] == goals[i])
  }

  /** Each score differs from its start by exactly the change in goals
      held, so the pool's total and the pending count are kept. */
  ghost predicate TracksHeld(team: seq<ProfileId>, scores: map<ProfileId, int>, goals: seq<Goal>,
                             scores': map<ProfileId, int>, goals': seq<Goal>) {
    && scores'.Keys == scores.Keys
    && (forall m :: m in scores ==> scores'[m] - Held(m, goals') == scores[m] - Held(m, goals))
    && ScoreTotal(team, scores') == ScoreTotal(team, scores)
    && PendingCount(goals') == PendingCount(goals)
    && AllPendingHeld(team, goals')
  }

  lemma MoveKeepsShape(goals: seq<Goal>, goals1: seq<Goal>, c: int, lo: ProfileId)
    requires OnlyPendingReassigned(goals, goals1)
    requires 0 <= c < |goals1| && IsPending(goals1[c])
    ensures OnlyPendingReassigned(goals, goals1[c := goals1[c].(assignee := Some(lo))])
  {
  }

  /** Moving one held goal from `hi` to `lo` together with one point keeps
      every member's score minus holdings. */
  lemma MoveKeepsBalance(scores1: map<ProfileId, int>, goals1: seq<Goal>, c: int, hi: ProfileId, lo: ProfileId, m: ProfileId)
    requires hi in scores1 && lo in scores1 && m in scores1 && hi != lo
    requires 0 <= c < |goals1| && HeldBy(goals1[c], hi)
    ensures scores1[hi := scores1[hi] - 1][lo := scores1[lo] + 1][m] - Held(m, goals1[c := goals1[c].(assignee := Some(lo))])
            == scores1[m] - Held(m, goals1)
  {
    HeldMove(goals1, c, lo, m);
  }

  lemma MoveKeepsTracks(team: seq<ProfileId>, scores: map<ProfileId, int>, goals: seq<Goal>,
                        scores1: map<ProfileId, int>, goals1: seq<Goal>, c: int, hi: ProfileId, lo: ProfileId)
    requires Distinct(team) && scores.Keys == TeamSet(team)
    requires hi in team && lo in team && hi != lo
    requires TracksHeld(team, scores, goals, scores1, goals1)
    requires 0 <= c < |goals1| && HeldBy(goals1[c], hi)
    ensures TracksHeld(team, scores, goals, scores1[hi := scores1[hi] - 1][lo := scores1[lo] + 1],
                       goals1[c := goals1[c].(assignee := Some(lo))])
  {
    var goals2 := goals1[c := goals1[c].(assignee := Some(lo))];
    var mid := scores1[hi := scores1[hi] - 1];
    forall m | m in scores
      ensures mid[lo := mid[lo] + 1][m] - Held(m, goals2) == scores1[m] - Held(m, goals1)
    {
      MoveKeepsBalance(scores1, goals1, c, hi, lo, m);
    }
    ScoreTotalAdjust(team, scores1, hi, -1);
    ScoreTotalAdjust(team, mid, lo, 1);
    SumUpdate(goals1, c, goals1[c].(assignee := Some(lo)), PendingOne);
  }

  /** One more round continues from where the earlier rounds left off. */
  lemma RoundsNext(team: seq<ProfileId>, scores: map<ProfileId, int>, goals: seq<Goal>, n: nat,
                   p: (map<ProfileId, int>, seq<Goal>))
    requires |team| > 0 && scores.Keys == TeamSet(team)
    requires Rounds(team, scores, goals, n) == Some(p)
    ensures p.0.Keys == scores.Keys
    ensures Rounds(team, scores, goals, n + 1) == EqualizeStep(team, p.0, p.1)
  {
  }

  /** A moving round keeps the invariants of the equalisation loop. */
  lemma RoundKeeps(team: seq<ProfileId>, scores: map<ProfileId, int>, goals: seq<Goal>,
                   scores1: map<ProfileId, int>, goals1: seq<Goal>)
    requires |team| > 0 && Distinct(team) && scores.Keys == TeamSet(team)
    requires OnlyPendingReassigned(goals, goals1)
    requires TracksHeld(team, scores, goals, scores1, goals1)
    requires EqualizeStep(team, scores1, goals1).Some?
    ensures var p := EqualizeStep(team, scores1, goals1).value;
            OnlyPendingReassigned(goals, p.1) && TracksHeld(team, scores, goals, p.0, p.1)
  {
    var r := EqualizeStep(team, scores1, goals1);
    var hi := team[FirstMax(team, scores1)];
    var lo := team[FirstMin(team, scores1)];
    var c := LatestHeldGoal(goals1, hi).value;
    assert r.value == (scores1[hi := scores1[hi] - 1][lo := scores1[lo] + 1],
                       goals1[c := goals1[c].(assignee := Some(lo))]);
    MoveKeepsShape(goals, goals1, c, lo);
    MoveKeepsTracks(team, scores, goals, scores1, goals1, c, hi, lo);
  }

  /** Phase 2 (lines 93-110): with more than one pool member and at least one
      pending goal, up to 2 x (pending goals) rounds of EqualizeStep, stopping
      at the first round that moves nothing. */
  method Equalize(team: seq<ProfileId>, scores: map<ProfileId, int>, goals: seq<Goal>)
    returns (goals': seq<Goal>, scores': map<ProfileId, int>, moved: nat)
    requires Distinct(team)
    requires scores.Keys == TeamSet(team)
    requires AllPendingHeld(team, goals)
    ensures OnlyPendingReassigned(goals, goals')
    ensures scores'.Keys == scores.Keys
    ensures forall m :: m in scores ==> scores'[m] - Held(m, goals') == scores[m] - Held(m, goals)
    ensures ScoreTotal(team, scores') == ScoreTotal(team, scores)
    ensures PendingCount(goals') == PendingCount(goals)
    ensures AllPendingHeld(team, goals')
    ensures moved <= 2 * PendingCount(goals)
    ensures |team| <= 1 || PendingCount(goals) == 0 ==> moved == 0 && goals' == goals && scores' == scores
    // the loop stops on its bound, on a gap of at most 2, or when the
    // highest scorer has nothing left to give
    ensures |team| > 1 && PendingCount(goals) > 0 ==>
              || moved == 2 * PendingCount(goals)
              || Gap(team, scores') <= 2
              || NoneHeldBy(goals', team[FirstMax(team, scores')])
    // the result is `moved` rounds; stopping early means the next round
    // moves nothing
    ensures |team| > 0 ==> Rounds(team, scores, goals, moved) == Some((scores', goals'))
    ensures |team| > 1 && PendingCount(goals) > 0 && moved < 2 * PendingCount(goals) ==>
              EqualizeStep(team, scores', goals').None?
  {
    SumNonNegative(goals, PendingOne);
    goals' := goals;
    scores' := scores;
    moved := 0;
    if |team| > 1 && PendingCount(goals) > 0 {
      goals', scores', moved := EqualizeRounds(team, scores, goals, 2 * PendingCount(goals));
    }
  }

  /** The loop of phase 2: up to `maxMoves` rounds, leaving at the first
      round that moves nothing. */
  method EqualizeRounds(team: seq<ProfileId>, scores: map<ProfileId, int>, goals: seq<Goal>, maxMoves: nat)
    returns (goals': seq<Goal>, scores': map<ProfileId, int>, moved: nat)
    requires |team| > 0 && Distinct(team)
    requires scores.Keys == TeamSet(team)
    requires AllPendingHeld(team, goals)
    ensures moved <= maxMoves
    ensures OnlyPendingReassigned(goals, goals')
    ensures TracksHeld(team, scores, goals, scores', goals')
    ensures Rounds(team, scores, goals, moved) == Some((scores', goals'))
    ensures moved < maxMoves ==> EqualizeStep(team, scores', goals').None?
  {
    goals' := goals;
    scores' := scores;
    moved := 0;
    while moved < maxMoves
      invariant moved <= maxMoves
      invariant OnlyPendingReassigned(goals, goals')
      invariant TracksHeld(team, scores, goals, scores', goals')
      invariant Rounds(team, scores, goals, moved) == Some((scores', goals'))
      decreases maxMoves - moved
    {
      var r := EqualizeStep(team, scores', goals');
      if r.None? {
        return;
      }
      RoundsNext(team, scores, goals, moved, (scores', goals'));
      RoundKeeps(team, scores, goals, scores', goals');
      goals', scores' := r.value.1, r.value.0;
      moved := moved + 1;
    }
  }

  // ---------------------------------------------------------------------
  // Conservation of goal points

  function HeldOf(goals: seq<Goal>): ProfileId -> int {
    (m: ProfileId) => Held(m, goals)
  }

  /** What one goal adds to each member's count. */
  function GoalShare(g: Goal): ProfileId -> int {
    (m: ProfileId) => HeldIndicator(m)(g)
  }

  /** The goals held, summed over the pool. */
  function HeldTotal(team: seq<ProfileId>, goals: seq<Goal>): int {
    Sum(team, HeldOf(goals))
  }

  /** A pending goal held inside a duplicate-free pool is counted for
      exactly one member; any other goal for none. */
  lemma GoalCountedOnce(team: seq<ProfileId>, g: Goal)
    requires Distinct(team)
    requires IsPending(g) ==> g.assignee.Some? && g.assignee.value in team
    ensures Sum(team, GoalShare(g)) == PendingOne(g)
  {
    var zero := (m: ProfileId) => 0;
    SumZero(team, zero);
    var x: ProfileId := if g.assignee.Some? then g.assignee.value else 1;
    forall y: ProfileId | y != x
      ensures zero(y) == GoalShare(g)(y)
    {
      assert !HeldBy(g, y);
      assert HeldIndicator(y)(g) == 0;
      assert GoalShare(g)(y) == HeldIndicator(y)(g);
    }
    if x in team {
      assert GoalShare(g)(x) == HeldIndicator(x)(g);
    }
    SumPointChange(team, zero, GoalShare(g), x);
  }

  /** When every pending goal is held by a pool member, the pool holds
      exactly the pending goals. */
  lemma {:induction false} HeldTotalCountsPending(team: seq<ProfileId>, goals: seq<Goal>)
    requires Distinct(team)
    requires AllPendingHeld(team, goals)
    ensures HeldTotal(team, goals) == PendingCount(goals)
    decreases |goals|
  {
    if |goals| == 0 {
      SumZero(team, HeldOf(goals));
    } else {
      var init := goals[..|goals| - 1];
      var g := goals[|goals| - 1];
      assert AllPendingHeld(team, init);
      HeldTotalCountsPending(team, init);
      SumLinear(team, HeldOf(init), GoalShare(g), HeldOf(goals));
      GoalCountedOnce(team, g);
    }
  }

  /** With every pending goal held in the pool, the pool's total score of the
      design is the total task and project load plus one point per pending
      goal: rebalancing only moves points between members. */
  lemma GoalScoresTotal(team: seq<ProfileId>, tasks: seq<Task>, projects: seq<Project>, goals: seq<Goal>)
    requires Distinct(team)
    requires AllPendingHeld(team, goals)
    ensures ScoreTotal(team, GoalScores(team, tasks, projects, goals))
            == ScoreTotal(team, ScoreMap(team, tasks, projects)) + PendingCount(goals)
  {
    SumLinear(team, Lookup(ScoreMap(team, tasks, projects)), HeldOf(goals),
              Lookup(GoalScores(team, tasks, projects, goals)));
    HeldTotalCountsPending(team, goals);
  }

  // ---------------------------------------------------------------------
  // The whole job

  /** Phase 1 changes only assignees of pending goals. */
  lemma Phase1Reassigns(team: seq<ProfileId>, scores: map<ProfileId, int>, goals: seq<Goal>,
                        goals1: seq<Goal>, order: seq<int>)
    requires GreedyPhase1(team, scores, goals, goals1, order)
    ensures OnlyPendingReassigned(goals, goals1)
  {
  }

  /** Reassigning pending goals twice is reassigning them once. */
  lemma ReassignTwice(goals: seq<Goal>, goals1: seq<Goal>, goals2: seq<Goal>)
    requires OnlyPendingReassigned(goals, goals1) && OnlyPendingReassigned(goals1, goals2)
    ensures OnlyPendingReassigned(goals, goals2)
  {
    assert forall i :: 0 <= i < |goals| ==> IsPending(goals1[i]) == IsPending(goals[i]);
  }

  /** Phases 1 and 2 on a non-empty, duplicate-free pool whose scores
      already include the goals held (phase 0). */
  method RunPhases(team: seq<ProfileId>, scores0: map<ProfileId, int>, goals: seq<Goal>)
    returns (goals1: seq<Goal>, scores1: map<ProfileId, int>, order: seq<int>,
             goals2: seq<Goal>, scores2: map<ProfileId, int>, assignedCount: nat, moved: nat)
    requires |team| > 0 && Distinct(team)
    requires scores0.Keys == TeamSet(team)
    // phase 1 is greedy in urgency order, phase 2 is `moved` rounds
    ensures GreedyPhase1(team, scores0, goals, goals1, order)
    ensures scores1.Keys == scores0.Keys
    ensures forall m :: m in scores0 ==> scores1[m] == scores0[m] + Held(m, goals1) - Held(m, goals)
    ensures Rounds(team, scores1, goals1, moved) == Some((scores2, goals2))
    ensures OnlyPendingReassigned(goals, goals2)
    ensures assignedCount == |OrphanSet(team, goals)|
    ensures AllPendingHeld(team, goals2)
    ensures PendingCount(goals2) == PendingCount(goals)
    ensures moved <= 2 * PendingCount(goals)
    ensures scores2.Keys == scores0.Keys
    ensures forall m :: m in scores0 ==> scores2[m] == scores0[m] + Held(m, goals2) - Held(m, goals)
    ensures |team| <= 1 || PendingCount(goals) == 0 ==>
              moved == 0 && forall i :: 0 <= i < |goals| && !IsOrphan(goals[i], team) ==> goals2[i] == goals[i]
    ensures |team| > 1 && PendingCount(goals) > 0 ==>
              || moved == 2 * PendingCount(goals)
              || Gap(team, scores2) <= 2
              || NoneHeldBy(goals2, team[FirstMax(team, scores2)])
  {
    goals1, scores1, order := AssignOrphans(team, scores0, goals);
    goals2, scores2, moved := Equalize(team, scores1, goals1);
    assignedCount := |order|;
    Phase1Reassigns(team, scores0, goals, goals1, order);
    ReassignTwice(goals, goals1, goals2);
  }

  /** The scores the job ends with are the scores of the design for the
      goals it returns. */
  lemma FinalScores(team: seq<ProfileId>, tasks: seq<Task>, projects: seq<Project>,
                    goals: seq<Goal>, goals2: seq<Goal>, scores0: map<ProfileId, int>, scores2: map<ProfileId, int>)
    requires scores0.Keys == TeamSet(team)
    requires forall m :: m in scores0 ==> scores0[m] == TeamScore(m, tasks, projects) + Held(m, goals)
    requires scores2.Keys == scores0.Keys
    requires forall m :: m in scores0 ==> scores2[m] == scores0[m] + Held(m, goals2) - Held(m, goals)
    ensures scores2 == GoalScores(team, tasks, projects, goals2)
  {
  }

  /** Scores of the design are never negative, whatever the goal
      assignment: a move takes a point only from a member holding the goal. */
  lemma GoalScoresNonNegative(team: seq<ProfileId>, tasks: seq<Task>, projects: seq<Project>, goals: seq<Goal>)
    ensures forall m :: m in GoalScores(team, tasks, projects, goals) ==> GoalScores(team, tasks, projects, goals)[m] >= 0
  {
    forall m | m in GoalScores(team, tasks, projects, goals)
      ensures GoalScores(team, tasks, projects, goals)[m] >= 0
    {
      TeamScoreNonNegative(m, tasks, projects);
      SumNonNegative(goals, HeldIndicator(m));
    }
  }

  /** rebalance_growpro_assignments: with an empty TEAM pool nothing changes;
      otherwise every orphaned pending goal is assigned (phase 1) and the
      equalisation loop runs (phase 2). */
  method RebalanceGrowProAssignments(profiles: seq<Profile>, tasks: seq<Task>, projects: seq<Project>, goals: seq<Goal>)
    returns (result: RebalanceResult)
    requires UniqueIds(profiles)
    // only assignees of pending goals change
    ensures OnlyPendingReassigned(goals, result.goals)
    ensures |TeamPool(profiles)| == 0 ==> result == RebalanceResult(goals, 0, 0)
    // every orphan is counted and every pending goal ends in the pool
    ensures |TeamPool(profiles)| > 0 ==> result.assignedCount == |OrphanSet(TeamPool(profiles), goals)|
    ensures |TeamPool(profiles)| > 0 ==> AllPendingHeld(TeamPool(profiles), result.goals)
    ensures result.rebalancedCount <= 2 * PendingCount(goals)
    // a single-member pool, or no pending goal, skips phase 2
    ensures |TeamPool(profiles)| <= 1 || PendingCount(goals) == 0 ==>
              && result.rebalancedCount == 0
              && forall i :: 0 <= i < |goals| && !IsOrphan(goals[i], TeamPool(profiles)) ==> result.goals[i] == goals[i]
    // goal points are moved, never created or lost
    ensures |TeamPool(profiles)| > 0 ==>
              ScoreTotal(TeamPool(profiles), GoalScores(TeamPool(profiles), tasks, projects, result.goals))
              == ScoreTotal(TeamPool(profiles), ScoreMap(TeamPool(profiles), tasks, projects)) + PendingCount(goals)
    // phase 2 stops on its bound, on a gap of at most 2, or when the highest
    // scorer holds no pending goal
    ensures |TeamPool(profiles)| > 1 && PendingCount(goals) > 0 ==>
              || result.rebalancedCount == 2 * PendingCount(goals)
              || Gap(TeamPool(profiles), GoalScores(TeamPool(profiles), tasks, projects, result.goals)) <= 2
              || NoneHeldBy(result.goals, TeamPool(profiles)[FirstMax(TeamPool(profiles),
                            GoalScores(TeamPool(profiles), tasks, projects, result.goals))])
    // phase 1 runs greedily from the design scores of the snapshot, and
    // phase 2 is exactly `rebalancedCount` rounds from there
    ensures |TeamPool(profiles)| > 0 ==>
              exists goals1: seq<Goal>, order: seq<int> ::
                && GreedyPhase1(TeamPool(profiles), GoalScores(TeamPool(profiles), tasks, projects, goals), goals, goals1, order)
                && Rounds(TeamPool(profiles), GoalScores(TeamPool(profiles), tasks, projects, goals1), goals1,
                          result.rebalancedCount)
                   == Some((GoalScores(TeamPool(profiles), tasks, projects, result.goals), result.goals))
  {
    var team := TeamPool(profiles);
    if |team| == 0 {
      SumNonNegative(goals, PendingOne);
      return RebalanceResult(goals, 0, 0);
    }
    var scores := ComputeTeamScores(team, tasks, projects);
    var scores0 := AddHeldGoals(scores, goals);
    var goals1, scores1, order, goals2, scores2, assignedCount, moved := RunPhases(team, scores0, goals);
    FinalScores(team, tasks, projects, goals, goals, scores0, scores0);
    FinalScores(team, tasks, projects, goals, goals1, scores0, scores1);
    FinalScores(team, tasks, projects, goals, goals2, scores0, scores2);
    assert GreedyPhase1(team, GoalScores(team, tasks, projects, goals), goals, goals1, order);
    GoalScoresTotal(team, tasks, projects, goals2);
    result := RebalanceResult(goals2, assignedCount, moved);
  }
}
