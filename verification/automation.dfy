/** Task reminders of core/automation.py: which tasks are due soon or
    overdue, what one reminder does, and the summary a run reports. The
    clock becomes a `today` parameter (days as integers), the activity log
    a set of reminder keys, and sending e-mail an outbox of recipient
    lists. */
module Automation {
  import opened Common

  /** A profile as the reminder code sees it: the e-mail of its user, None
      when there is no user or no e-mail attribute. */
  datatype Member = Member(email: Option<string>)

  /** The fields of a task that reminders read. */
  datatype ReminderTask = ReminderTask(id: nat, archived: bool, status: string, due: Option<int>, assignees: seq<Member>)

  /** The two event types, `task_reminder_due_soon` and `task_reminder_overdue`. */
  datatype Event = DueSoonEvent | OverdueEvent

  /** What `_already_reminded` looks up: an activity entry of this event
      type, for this task, recording this due date. */
  datatype ReminderKey = ReminderKey(event: Event, task: nat, due: Option<int>)

  /** The dictionary `_notify_task` returns. */
  datatype Outcome = Skipped | NoRecipients | Notified(emailsSent: nat)

  /** One reminder: its outcome, the activity log after it, and the
      recipients of the e-mail sent, if any. */
  datatype Notice = Notice(outcome: Outcome, log: set<ReminderKey>, mail: Option<seq<string>>)

  datatype Summary = Summary(dueSoon: nat, overdue: nat, notified: nat, emailsSent: nat, skipped: nat, noRecipients: nat)

  /** The state a run threads through its loops. */
  datatype RunState = RunState(summary: Summary, log: set<ReminderKey>, outbox: seq<seq<string>>)

  const Zero: Summary := Summary(0, 0, 0, 0, 0, 0)

  const DONE: string := "DONE"

  /** A truthy e-mail: present and not empty. */
  predicate HasEmail(m: Member) {
    m.email.Some? && m.email.value != ""
  }

  /** Reference definition of `_profile_emails`: the truthy e-mails, in
      input order. */
  function EmailsOf(ms: seq<Member>): (emails: seq<string>)
    ensures |emails| <= |ms|
    ensures forall k :: 0 <= k < |emails| ==> emails[k] != ""
    ensures emails == [] <==> forall i :: 0 <= i < |ms| ==> !HasEmail(ms[i])
    decreases |ms|
  {
    if |ms| == 0 then []
    else
      var init := ms[..|ms| - 1];
      var last := ms[|ms| - 1];
      assert forall i :: 0 <= i < |init| ==> init[i] == ms[i];
      if HasEmail(last) then EmailsOf(init) + [last.email.value] else EmailsOf(init)
  }

  /** Exactly the truthy e-mails are kept: every one of them, and nothing
      that is not one of them. */
  lemma {:induction false} EmailsOfMembers(ms: seq<Member>, e: string)
    ensures e in EmailsOf(ms) <==> exists i :: 0 <= i < |ms| && HasEmail(ms[i]) && ms[i].email.value == e
    decreases |ms|
  {
    if |ms| > 0 {
      var init := ms[..|ms| - 1];
      EmailsOfMembers(init, e);
      assert forall i :: 0 <= i < |init| ==> init[i] == ms[i];
      if e in EmailsOf(ms) && e !in EmailsOf(init) {
        assert HasEmail(ms[|ms| - 1]) && ms[|ms| - 1].email.value == e;
      }
    }
  }

  /** Filtering e-mails commutes with concatenation, so the input order is
      kept. */
  lemma {:induction false} EmailsOfAppend(a: seq<Member>, b: seq<Member>)
    ensures EmailsOf(a + b) == EmailsOf(a) + EmailsOf(b)
    decreases |b|
  {
    if |b| == 0 {
      assert a + b == a;
    } else {
      var b' := b[..|b| - 1];
      assert (a + b)[..|a + b| - 1] == a + b';
      assert (a + b)[|a + b| - 1] == b[|b| - 1];
      EmailsOfAppend(a, b');
    }
  }

  /** `_profile_emails`: the loop over the profiles. */
  method ProfileEmails(profiles: seq<Member>) returns (emails: seq<string>)
    ensures emails == EmailsOf(profiles)
  {
    emails := [];
    var i := 0;
    while i < |profiles|
      invariant 0 <= i <= |profiles|
      invariant emails == EmailsOf(profiles[..i])
    {
      assert profiles[..i + 1][..i] == profiles[..i];
      if HasEmail(profiles[i]) {
        emails := emails + [profiles[i].email.value];
      }
      i := i + 1;
    }
    assert profiles[..|profiles|] == profiles;
  }

  function KeyOf(t: ReminderTask, event: Event): ReminderKey {
    ReminderKey(event, t.id, t.due)
  }

  /** The outcome of `_notify_task`, checked in order: already reminded,
      then no recipients, then notified. */
  function Judge(t: ReminderTask, event: Event, log: set<ReminderKey>): (o: Outcome)
    ensures o.Skipped? <==> KeyOf(t, event) in log
    ensures o.NoRecipients? <==> KeyOf(t, event) !in log && EmailsOf(t.assignees) == []
    ensures o.Notified? ==> o.emailsSent == |EmailsOf(t.assignees)| > 0
  {
    if KeyOf(t, event) in log then Skipped
    else
      var recipients := EmailsOf(t.assignees);
      if recipients == [] then NoRecipients else Notified(|recipients|)
  }

  /** `_notify_task`: a notified task gets one e-mail to all its recipients
      and one activity entry, unless this is a dry run; the outcome is the
      same either way. */
  function NotifyTask(t: ReminderTask, event: Event, dryRun: bool, log: set<ReminderKey>): (r: Notice)
    ensures r.outcome == Judge(t, event, log)
    ensures dryRun || !r.outcome.Notified? ==> r.log == log && r.mail.None?
    ensures !dryRun && r.outcome.Notified? ==>
              r.log == log + {KeyOf(t, event)} && r.mail == Some(EmailsOf(t.assignees))
  {
    var o := Judge(t, event, log);
    if o.Notified? && !dryRun then Notice(o, log + {KeyOf(t, event)}, Some(EmailsOf(t.assignees)))
    else Notice(o, log, None)
  }

  /** The counters one outcome adds to the summary. */
  function Count(o: Outcome): Summary {
    match o
    case Skipped => Zero.(skipped := 1)
    case NoRecipients => Zero.(noRecipients := 1)
    case Notified(n) => Zero.(notified := 1, emailsSent := n)
  }

  function Plus(a: Summary, b: Summary): Summary {
    Summary(a.dueSoon + b.dueSoon, a.overdue + b.overdue, a.notified + b.notified,
            a.emailsSent + b.emailsSent, a.skipped + b.skipped, a.noRecipients + b.noRecipients)
  }

  /** Setting the overdue counter of a sum whose overdue parts are 0. */
  lemma PlusSetOverdue(a: Summary, b: Summary, n: nat)
    requires a.overdue == 0 && b.overdue == 0
    ensures Plus(a, b).(overdue := n) == Plus(a.(overdue := n), b)
  {
  }

  /** Outcomes handled: notified, skipped or without recipients. */
  function Handled(s: Summary): nat {
    s.notified + s.skipped + s.noRecipients
  }

  /** One iteration of a reminder loop. */
  function Step(st: RunState, t: ReminderTask, event: Event, dryRun: bool): RunState {
    var n := NotifyTask(t, event, dryRun, st.log);
    RunState(Plus(st.summary, Count(n.outcome)), n.log,
             if n.mail.Some? then st.outbox + [n.mail.value] else st.outbox)
  }

  /** A reminder loop: every task in turn, each seeing the activity log the
      earlier ones left. Exactly one outcome is counted per task. */
  function NotifyAll(tasks: seq<ReminderTask>, event: Event, dryRun: bool, st: RunState): (r: RunState)
    ensures Handled(r.summary) == Handled(st.summary) + |tasks|
    ensures r.summary.dueSoon == st.summary.dueSoon && r.summary.overdue == st.summary.overdue
    ensures st.log <= r.log
    ensures dryRun ==> r.log == st.log && r.outbox == st.outbox
    ensures forall k :: k in r.log - st.log ==> k.event == event
    decreases |tasks|
  {
    if |tasks| == 0 then st
    else NotifyAll(tasks[1..], event, dryRun, Step(st, tasks[0], event, dryRun))
  }

  /** Reference count: every task judged against the same starting log. */
  function Batch(tasks: seq<ReminderTask>, event: Event, log: set<ReminderKey>): (b: Summary)
    ensures b.dueSoon == 0 && b.overdue == 0
    decreases |tasks|
  {
    if |tasks| == 0 then Zero
    else Plus(Count(Judge(tasks[0], event, log)), Batch(tasks[1..], event, log))
  }

  /** The keys of the tasks a run against `log` notifies. */
  function NewKeys(tasks: seq<ReminderTask>, event: Event, log: set<ReminderKey>): (keys: set<ReminderKey>)
    ensures forall k :: k in keys ==> k.event == event && k !in log
    decreases |tasks|
  {
    if |tasks| == 0 then {}
    else
      (if Judge(tasks[0], event, log).Notified? then {KeyOf(tasks[0], event)} else {})
      + NewKeys(tasks[1..], event, log)
  }

  /** A key is new exactly when it belongs to a task the run notifies. */
  lemma {:induction false} NewKeysMembers(tasks: seq<ReminderTask>, event: Event, log: set<ReminderKey>, k: ReminderKey)
    ensures k in NewKeys(tasks, event, log) <==>
            exists i :: 0 <= i < |tasks| && KeyOf(tasks[i], event) == k && Judge(tasks[i], event, log).Notified?
    decreases |tasks|
  {
    if |tasks| > 0 {
      NewKeysMembers(tasks[1..], event, log, k);
      if k in NewKeys(tasks[1..], event, log) {
        var i :| 0 <= i < |tasks[1..]| && KeyOf(tasks[1..][i], event) == k && Judge(tasks[1..][i], event, log).Notified?;
        assert tasks[i + 1] == tasks[1..][i];
      }
      if exists i :: 0 <= i < |tasks| && KeyOf(tasks[i], event) == k && Judge(tasks[i], event, log).Notified? {
        var i :| 0 <= i < |tasks| && KeyOf(tasks[i], event) == k && Judge(tasks[i], event, log).Notified?;
        if i > 0 {
          assert tasks[1..][i - 1] == tasks[i];
        }
      }
    }
  }

  /** No two tasks share an id (primary keys). */
  predicate DistinctIds(tasks: seq<ReminderTask>) {
    forall i, j :: 0 <= i < j < |tasks| ==> tasks[i].id != tasks[j].id
  }

  /** A selection from tasks with distinct ids has distinct ids. */
  lemma FilterIds(tasks: seq<ReminderTask>, keep: ReminderTask -> bool)
    ensures DistinctIds(tasks) ==> DistinctIds(Filter(tasks, keep))
  {
    if DistinctIds(tasks) {
      var id := (t: ReminderTask) => t.id;
      assert DistinctBy(tasks, id);
      FilterDistinctBy(tasks, keep, id);
      assert DistinctIds(Filter(tasks, keep)) by {
        var r := Filter(tasks, keep);
        forall i, j | 0 <= i < j < |r| ensures r[i].id != r[j].id {
          assert id(r[i]) != id(r[j]);
        }
      }
    }
  }

  /** The two logs hold the same keys of these tasks. */
  predicate LogAgrees(tasks: seq<ReminderTask>, event: Event, log: set<ReminderKey>, log': set<ReminderKey>) {
    forall i :: 0 <= i < |tasks| ==> (KeyOf(tasks[i], event) in log <==> KeyOf(tasks[i], event) in log')
  }

  /** Batch and NewKeys depend on the log only through the tasks' own keys. */
  lemma {:induction false} BatchFrame(tasks: seq<ReminderTask>, event: Event, log: set<ReminderKey>, log': set<ReminderKey>)
    requires LogAgrees(tasks, event, log, log')
    ensures Batch(tasks, event, log') == Batch(tasks, event, log)
    ensures NewKeys(tasks, event, log') == NewKeys(tasks, event, log)
    decreases |tasks|
  {
    if |tasks| > 0 {
      assert LogAgrees(tasks[1..], event, log, log');
      BatchFrame(tasks[1..], event, log, log');
    }
  }

  lemma PlusAssoc(a: Summary, b: Summary, c: Summary)
    ensures Plus(Plus(a, b), c) == Plus(a, Plus(b, c))
  {
  }

  /** With distinct ids no task sees another's activity entry, so the loop
      counts what judging every task against the starting log counts, and
      logs exactly the keys of the tasks it notified. */
  lemma {:induction false} NotifyAllMatchesBatch(tasks: seq<ReminderTask>, event: Event, dryRun: bool, st: RunState)
    requires DistinctIds(tasks)
    ensures NotifyAll(tasks, event, dryRun, st).summary == Plus(st.summary, Batch(tasks, event, st.log))
    ensures !dryRun ==> NotifyAll(tasks, event, dryRun, st).log == st.log + NewKeys(tasks, event, st.log)
    decreases |tasks|
  {
    if |tasks| > 0 {
      var t := tasks[0];
      var rest := tasks[1..];
      var st1 := Step(st, t, event, dryRun);
      assert DistinctIds(rest);
      NotifyAllMatchesBatch(rest, event, dryRun, st1);
      forall i | 0 <= i < |rest|
        ensures rest[i].id != t.id
      {
        assert rest[i] == tasks[i + 1];
      }
      assert LogAgrees(rest, event, st.log, st1.log);
      BatchFrame(rest, event, st.log, st1.log);
      PlusAssoc(st.summary, Count(Judge(t, event, st.log)), Batch(rest, event, st.log));
    }
  }

  /** Entries of the other event type do not change a batch. */
  lemma {:induction false} OtherEventFrame(tasks: seq<ReminderTask>, event: Event, log: set<ReminderKey>, extra: set<ReminderKey>)
    requires forall k :: k in extra ==> k.event != event
    ensures Batch(tasks, event, log + extra) == Batch(tasks, event, log)
    ensures NewKeys(tasks, event, log + extra) == NewKeys(tasks, event, log)
  {
    assert LogAgrees(tasks, event, log, log + extra);
    BatchFrame(tasks, event, log, log + extra);
  }

  /** The counters of a batch judged again once its notified tasks are
      logged: the notified ones count as skipped, and no e-mail goes out. */
  function Relogged(b: Summary): Summary {
    b.(notified := 0, emailsSent := 0, skipped := b.skipped + b.notified)
  }

  lemma RelogPlus(a: Summary, b: Summary)
    ensures Relogged(Plus(a, b)) == Plus(Relogged(a), Relogged(b))
  {
  }

  /** `log'` holds a task's key exactly when `log` does or the task is
      notified against `log`. */
  predicate LoggedAfter(tasks: seq<ReminderTask>, event: Event, log: set<ReminderKey>, log': set<ReminderKey>) {
    forall i :: 0 <= i < |tasks| ==>
      (KeyOf(tasks[i], event) in log' <==> KeyOf(tasks[i], event) in log || Judge(tasks[i], event, log).Notified?)
  }

  /** With distinct ids, a real run's log is `LoggedAfter` its start. */
  lemma {:induction false} NewKeysLogged(tasks: seq<ReminderTask>, event: Event, log: set<ReminderKey>)
    requires DistinctIds(tasks)
    ensures LoggedAfter(tasks, event, log, log + NewKeys(tasks, event, log))
  {
    forall i | 0 <= i < |tasks|
      ensures KeyOf(tasks[i], event) in log + NewKeys(tasks, event, log)
              <==> KeyOf(tasks[i], event) in log || Judge(tasks[i], event, log).Notified?
    {
      NewKeysMembers(tasks, event, log, KeyOf(tasks[i], event));
    }
  }

  /** One task judged again after its own notification was logged. */
  lemma JudgeAfterLogging(t: ReminderTask, event: Event, log: set<ReminderKey>, log': set<ReminderKey>)
    requires KeyOf(t, event) in log' <==> KeyOf(t, event) in log || Judge(t, event, log).Notified?
    ensures Count(Judge(t, event, log')) == Relogged(Count(Judge(t, event, log)))
  {
  }

  /** Judging again after logging the notified tasks: what was notified is
      now skipped, and the rest stays as it was. */
  lemma {:induction false} BatchAfterLogging(tasks: seq<ReminderTask>, event: Event, log: set<ReminderKey>, log': set<ReminderKey>)
    requires LoggedAfter(tasks, event, log, log')
    ensures Batch(tasks, event, log') == Relogged(Batch(tasks, event, log))
    decreases |tasks|
  {
    if |tasks| > 0 {
      assert LoggedAfter(tasks[1..], event, log, log');
      BatchAfterLogging(tasks[1..], event, log, log');
      JudgeAfterLogging(tasks[0], event, log, log');
      RelogPlus(Count(Judge(tasks[0], event, log)), Batch(tasks[1..], event, log));
    }
  }

  /** Open tasks with a due date: the only ones reminders ever consider. */
  predicate Considered(t: ReminderTask) {
    !t.archived && t.status != DONE && t.due.Some?
  }

  predicate InDueSoonWindow(t: ReminderTask, today: int, days: int) {
    Considered(t) && today <= t.due.value <= today + days
  }

  predicate IsOverdue(t: ReminderTask, today: int) {
    Considered(t) && t.due.value < today
  }

  /** The due-soon query: considered tasks due between today and today +
      days, both included, in snapshot order. */
  function DueSoon(tasks: seq<ReminderTask>, today: int, days: int): (r: seq<ReminderTask>)
    ensures forall t :: t in r <==> t in tasks && InDueSoonWindow(t, today, days)
    ensures Subsequence(r, tasks)
    ensures |r| <= |tasks|
    ensures DistinctIds(tasks) ==> DistinctIds(r)
  {
    var keep := (t: ReminderTask) => InDueSoonWindow(t, today, days);
    FilterIds(tasks, keep);
    Filter(tasks, keep)
  }

  /** The overdue query: considered tasks due before today. */
  function Overdue(tasks: seq<ReminderTask>, today: int): (r: seq<ReminderTask>)
    ensures forall t :: t in r <==> t in tasks && IsOverdue(t, today)
    ensures Subsequence(r, tasks)
    ensures |r| <= |tasks|
    ensures DistinctIds(tasks) ==> DistinctIds(r)
  {
    var keep := (t: ReminderTask) => IsOverdue(t, today);
    FilterIds(tasks, keep);
    Filter(tasks, keep)
  }

  /** No task is both due soon and overdue. */
  lemma WindowsDisjoint(tasks: seq<ReminderTask>, today: int, days: int)
    ensures forall t :: t in DueSoon(tasks, today, days) ==> t !in Overdue(tasks, today)
  {
  }

  /** The tasks the due-soon pass visits: none unless it is enabled and
      `days` is positive. */
  function DueSoonSelection(tasks: seq<ReminderTask>, today: int, days: int, includeDueSoon: bool): (r: seq<ReminderTask>)
    ensures DistinctIds(tasks) ==> DistinctIds(r)
  {
    if includeDueSoon && days > 0 then DueSoon(tasks, today, days) else []
  }

  /** The tasks the overdue pass visits: none unless it is enabled. */
  function OverdueSelection(tasks: seq<ReminderTask>, today: int, includeOverdue: bool): (r: seq<ReminderTask>)
    ensures DistinctIds(tasks) ==> DistinctIds(r)
  {
    if includeOverdue then Overdue(tasks, today) else []
  }

  /** The due-soon half of `send_task_reminders`: counted and run only when
      enabled and `days` is positive. */
  function DueSoonPass(tasks: seq<ReminderTask>, today: int, days: int, includeDueSoon: bool, dryRun: bool,
                       st: RunState): RunState
  {
    if includeDueSoon && days > 0 then
      var selected := DueSoon(tasks, today, days);
      NotifyAll(selected, DueSoonEvent, dryRun, st.(summary := st.summary.(dueSoon := |selected|)))
    else st
  }

  /** The overdue half of `send_task_reminders`. */
  function OverduePass(tasks: seq<ReminderTask>, today: int, includeOverdue: bool, dryRun: bool,
                       st: RunState): RunState
  {
    if includeOverdue then
      var selected := Overdue(tasks, today);
      NotifyAll(selected, OverdueEvent, dryRun, st.(summary := st.summary.(overdue := |selected|)))
    else st
  }

  /** `send_task_reminders`: counters start at 0; the due-soon pass, then
      the overdue pass. Every counted task gets exactly one outcome. */
  function SendTaskReminders(tasks: seq<ReminderTask>, today: int, days: int, includeOverdue: bool,
                             includeDueSoon: bool, dryRun: bool, log: set<ReminderKey>): (r: RunState)
    ensures r.summary.dueSoon == |DueSoonSelection(tasks, today, days, includeDueSoon)|
    ensures r.summary.overdue == |OverdueSelection(tasks, today, includeOverdue)|
    ensures Handled(r.summary) == r.summary.dueSoon + r.summary.overdue
    ensures log <= r.log
    ensures dryRun ==> r.log == log && r.outbox == []
  {
    var st0 := RunState(Zero, log, []);
    var st1 := DueSoonPass(tasks, today, days, includeDueSoon, dryRun, st0);
    OverduePass(tasks, today, includeOverdue, dryRun, st1)
  }

  /** The due-soon pass counts what judging its tasks against the starting
      log counts. */
  lemma {:induction false} DueSoonPassBatch(tasks: seq<ReminderTask>, today: int, days: int, includeDueSoon: bool,
                                            dryRun: bool, st: RunState)
    requires DistinctIds(tasks) && st.summary.dueSoon == 0
    ensures DueSoonPass(tasks, today, days, includeDueSoon, dryRun, st).summary
            == Plus(st.summary.(dueSoon := |DueSoonSelection(tasks, today, days, includeDueSoon)|),
                    Batch(DueSoonSelection(tasks, today, days, includeDueSoon), DueSoonEvent, st.log))
  {
    if includeDueSoon && days > 0 {
      var sel := DueSoon(tasks, today, days);
      NotifyAllMatchesBatch(sel, DueSoonEvent, dryRun, st.(summary := st.summary.(dueSoon := |sel|)));
    }
  }

  /** A real due-soon pass logs exactly the tasks it notified. */
  lemma {:induction false} DueSoonPassLog(tasks: seq<ReminderTask>, today: int, days: int, includeDueSoon: bool,
                                          st: RunState)
    requires DistinctIds(tasks)
    ensures DueSoonPass(tasks, today, days, includeDueSoon, false, st).log
            == st.log + NewKeys(DueSoonSelection(tasks, today, days, includeDueSoon), DueSoonEvent, st.log)
  {
    if includeDueSoon && days > 0 {
      var sel := DueSoon(tasks, today, days);
      NotifyAllMatchesBatch(sel, DueSoonEvent, false, st.(summary := st.summary.(dueSoon := |sel|)));
    } else {
      assert NewKeys([], DueSoonEvent, st.log) == {};
    }
  }

  /** The overdue pass counts what judging its tasks against the starting
      log counts. */
  lemma {:induction false} OverduePassBatch(tasks: seq<ReminderTask>, today: int, includeOverdue: bool, dryRun: bool,
                                            st: RunState)
    requires DistinctIds(tasks) && st.summary.overdue == 0
    ensures OverduePass(tasks, today, includeOverdue, dryRun, st).summary
            == Plus(st.summary.(overdue := |OverdueSelection(tasks, today, includeOverdue)|),
                    Batch(OverdueSelection(tasks, today, includeOverdue), OverdueEvent, st.log))
  {
    if includeOverdue {
      var sel := Overdue(tasks, today);
      NotifyAllMatchesBatch(sel, OverdueEvent, dryRun, st.(summary := st.summary.(overdue := |sel|)));
    }
  }

  /** A real overdue pass logs exactly the tasks it notified. */
  lemma {:induction false} OverduePassLog(tasks: seq<ReminderTask>, today: int, includeOverdue: bool, st: RunState)
    requires DistinctIds(tasks)
    ensures OverduePass(tasks, today, includeOverdue, false, st).log
            == st.log + NewKeys(OverdueSelection(tasks, today, includeOverdue), OverdueEvent, st.log)
  {
    if includeOverdue {
      var sel := Overdue(tasks, today);
      NotifyAllMatchesBatch(sel, OverdueEvent, false, st.(summary := st.summary.(overdue := |sel|)));
    } else {
      assert NewKeys([], OverdueEvent, st.log) == {};
    }
  }

  /** A due-soon pass only adds due-soon entries, so the overdue verdicts
      against its log are those against the starting log. */
  lemma {:induction false} DueSoonPassKeepsOverdue(tasks: seq<ReminderTask>, today: int, days: int,
                                                   includeDueSoon: bool, dryRun: bool, st: RunState,
                                                   od: seq<ReminderTask>)
    ensures Batch(od, OverdueEvent, DueSoonPass(tasks, today, days, includeDueSoon, dryRun, st).log)
            == Batch(od, OverdueEvent, st.log)
  {
    var log' := DueSoonPass(tasks, today, days, includeDueSoon, dryRun, st).log;
    assert LogAgrees(od, OverdueEvent, st.log, log') by {
      forall i | 0 <= i < |od|
        ensures KeyOf(od[i], OverdueEvent) in st.log <==> KeyOf(od[i], OverdueEvent) in log'
      {
        assert KeyOf(od[i], OverdueEvent) !in log' - st.log;
      }
    }
    BatchFrame(od, OverdueEvent, st.log, log');
  }

  /** The summary of a run, judged task by task against the starting log. */
  lemma {:induction false} RunSummary(tasks: seq<ReminderTask>, today: int, days: int, includeOverdue: bool,
                                      includeDueSoon: bool, dryRun: bool, log: set<ReminderKey>)
    requires DistinctIds(tasks)
    ensures SendTaskReminders(tasks, today, days, includeOverdue, includeDueSoon, dryRun, log).summary
            == Plus(Plus(Zero.(dueSoon := |DueSoonSelection(tasks, today, days, includeDueSoon)|,
                               overdue := |OverdueSelection(tasks, today, includeOverdue)|),
                         Batch(DueSoonSelection(tasks, today, days, includeDueSoon), DueSoonEvent, log)),
                    Batch(OverdueSelection(tasks, today, includeOverdue), OverdueEvent, log))
  {
    var ds := DueSoonSelection(tasks, today, days, includeDueSoon);
    var od := OverdueSelection(tasks, today, includeOverdue);
    var st0 := RunState(Zero, log, []);
    if includeDueSoon && days > 0 {
      var st1 := DueSoonPass(tasks, today, days, includeDueSoon, dryRun, st0);
      DueSoonPassBatch(tasks, today, days, includeDueSoon, dryRun, st0);
      DueSoonPassKeepsOverdue(tasks, today, days, includeDueSoon, dryRun, st0, od);
      OverduePassBatch(tasks, today, includeOverdue, dryRun, st1);
      PlusSetOverdue(Zero.(dueSoon := |ds|), Batch(ds, DueSoonEvent, log), |od|);
    } else {
      assert DueSoonPass(tasks, today, days, includeDueSoon, dryRun, st0) == st0;
      assert Batch(ds, DueSoonEvent, log) == Zero;
      OverduePassBatch(tasks, today, includeOverdue, dryRun, st0);
    }
  }

  /** A real run logs exactly the tasks it notified. */
  lemma {:induction false} RunLog(tasks: seq<ReminderTask>, today: int, days: int, includeOverdue: bool,
                                  includeDueSoon: bool, log: set<ReminderKey>)
    requires DistinctIds(tasks)
    ensures SendTaskReminders(tasks, today, days, includeOverdue, includeDueSoon, false, log).log
            == log + NewKeys(DueSoonSelection(tasks, today, days, includeDueSoon), DueSoonEvent, log)
                   + NewKeys(OverdueSelection(tasks, today, includeOverdue), OverdueEvent, log)
  {
    var ds := DueSoonSelection(tasks, today, days, includeDueSoon);
    var od := OverdueSelection(tasks, today, includeOverdue);
    var st0 := RunState(Zero, log, []);
    var st1 := DueSoonPass(tasks, today, days, includeDueSoon, false, st0);
    DueSoonPassLog(tasks, today, days, includeDueSoon, st0);
    OtherEventFrame(od, OverdueEvent, log, NewKeys(ds, DueSoonEvent, log));
    OverduePassLog(tasks, today, includeOverdue, st1);
  }

  /** A dry run reports the same counters as a real run from the same log. */
  lemma {:induction false} DryRunSameCounters(tasks: seq<ReminderTask>, today: int, days: int, includeOverdue: bool,
                           includeDueSoon: bool, log: set<ReminderKey>)
    requires DistinctIds(tasks)
    ensures SendTaskReminders(tasks, today, days, includeOverdue, includeDueSoon, true, log).summary
            == SendTaskReminders(tasks, today, days, includeOverdue, includeDueSoon, false, log).summary
  {
    RunSummary(tasks, today, days, includeOverdue, includeDueSoon, true, log);
    RunSummary(tasks, today, days, includeOverdue, includeDueSoon, false, log);
  }

  lemma UnionSwap<T>(a: set<T>, b: set<T>, c: set<T>)
    ensures a + b + c == a + c + b
  {
  }

  /** One pass judged again against a log holding its own notifications
      and entries of the other event type. */
  lemma {:induction false} RelogBatch(sel: seq<ReminderTask>, event: Event, log: set<ReminderKey>,
                                      other: set<ReminderKey>)
    requires DistinctIds(sel)
    requires forall k :: k in other ==> k.event != event
    ensures Batch(sel, event, log + NewKeys(sel, event, log) + other) == Relogged(Batch(sel, event, log))
  {
    var mine := NewKeys(sel, event, log);
    OtherEventFrame(sel, event, log + mine, other);
    NewKeysLogged(sel, event, log);
    BatchAfterLogging(sel, event, log, log + mine);
  }

  /** Both passes judged again against the log a real run leaves. */
  lemma {:induction false} RelogBatches(ds: seq<ReminderTask>, od: seq<ReminderTask>, log: set<ReminderKey>)
    requires DistinctIds(ds) && DistinctIds(od)
    ensures Batch(ds, DueSoonEvent, log + NewKeys(ds, DueSoonEvent, log) + NewKeys(od, OverdueEvent, log))
            == Relogged(Batch(ds, DueSoonEvent, log))
    ensures Batch(od, OverdueEvent, log + NewKeys(ds, DueSoonEvent, log) + NewKeys(od, OverdueEvent, log))
            == Relogged(Batch(od, OverdueEvent, log))
  {
    var nd := NewKeys(ds, DueSoonEvent, log);
    var no := NewKeys(od, OverdueEvent, log);
    RelogBatch(ds, DueSoonEvent, log, no);
    UnionSwap(log, nd, no);
    RelogBatch(od, OverdueEvent, log, nd);
  }

  /** Running again over the same tasks after a real run: every task the
      first run notified is now skipped, nothing is notified and no e-mail
      is sent. */
  lemma {:induction false} RerunSkipsNotified(tasks: seq<ReminderTask>, today: int, days: int, includeOverdue: bool,
                                              includeDueSoon: bool, dryRun: bool, log: set<ReminderKey>)
    requires DistinctIds(tasks)
    ensures SendTaskReminders(tasks, today, days, includeOverdue, includeDueSoon, dryRun,
                              SendTaskReminders(tasks, today, days, includeOverdue, includeDueSoon, false, log).log).summary
            == Relogged(SendTaskReminders(tasks, today, days, includeOverdue, includeDueSoon, false, log).summary)
  {
    var ds := DueSoonSelection(tasks, today, days, includeDueSoon);
    var od := OverdueSelection(tasks, today, includeOverdue);
    var first := SendTaskReminders(tasks, today, days, includeOverdue, includeDueSoon, false, log);
    var log1 := first.log;
    var z := Zero.(dueSoon := |ds|, overdue := |od|);
    var b1 := Batch(ds, DueSoonEvent, log);
    var b2 := Batch(od, OverdueEvent, log);
    RunLog(tasks, today, days, includeOverdue, includeDueSoon, log);
    RunSummary(tasks, today, days, includeOverdue, includeDueSoon, false, log);
    RunSummary(tasks, today, days, includeOverdue, includeDueSoon, dryRun, log1);
    RelogBatches(ds, od, log);
    RelogPlus(Plus(z, b1), b2);
    RelogPlus(z, b1);
  }
}
