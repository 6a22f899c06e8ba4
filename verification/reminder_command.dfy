/** The `send_task_reminders` management command: it clamps the day window,
    turns its negative flags into the function's positive ones and runs the
    reminders once. Writing the summary to stdout is left out. */
module ReminderCommand {
  import opened Automation

  /** Smallest and largest day window the command accepts. */
  const MinDays: int := 1
  const MaxDays: int := 30

  /** The parsed options: `--days`, `--dry-run`, `--no-overdue`, `--no-due-soon`. */
  datatype Options = Options(days: int, dryRun: bool, noOverdue: bool, noDueSoon: bool)

  /** What the parser yields when no option is given. */
  const DefaultOptions: Options := Options(3, false, false, false)

  /** `max(1, min(30, days))`: the window is pulled into [1, 30] and left
      alone when it already lies there. */
  function EffectiveDays(days: int): (d: int)
    ensures MinDays <= d <= MaxDays
    ensures MinDays <= days <= MaxDays ==> d == days
    ensures days < MinDays ==> d == MinDays
    ensures days > MaxDays ==> d == MaxDays
  {
    if days < MinDays then MinDays else if days > MaxDays then MaxDays else days
  }

  /** Clamping twice is clamping once. */
  lemma EffectiveDaysIdempotent(days: int)
    ensures EffectiveDays(EffectiveDays(days)) == EffectiveDays(days)
  {
  }

  /** Clamping keeps the order of windows. */
  lemma EffectiveDaysMonotone(a: int, b: int)
    requires a <= b
    ensures EffectiveDays(a) <= EffectiveDays(b)
  {
  }

  /** `handle`: one reminder run with the clamped window; a pass runs unless
      its `--no-…` flag is set. */
  function Handle(options: Options, tasks: seq<ReminderTask>, today: int, log: set<ReminderKey>): (r: RunState)
    ensures r.summary.dueSoon == |DueSoonSelection(tasks, today, EffectiveDays(options.days), !options.noDueSoon)|
    ensures r.summary.overdue == |OverdueSelection(tasks, today, !options.noOverdue)|
    ensures options.noDueSoon ==> r.summary.dueSoon == 0
    ensures options.noOverdue ==> r.summary.overdue == 0
    ensures options.dryRun ==> r.log == log && r.outbox == []
  {
    SendTaskReminders(tasks, today, EffectiveDays(options.days), !options.noOverdue, !options.noDueSoon,
                      options.dryRun, log)
  }

  /** Because the window is at least one day, the due-soon pass is never
      switched off by the day count: without `--no-due-soon` every task due
      from today to today + window is counted. */
  lemma DueSoonPassAlwaysRuns(options: Options, tasks: seq<ReminderTask>, today: int, log: set<ReminderKey>)
    requires !options.noDueSoon
    ensures Handle(options, tasks, today, log).summary.dueSoon
            == |DueSoon(tasks, today, EffectiveDays(options.days))|
  {
  }

  /** The command's defaults are the function's defaults: three days, both
      passes, a real run. */
  lemma DefaultsMatch(tasks: seq<ReminderTask>, today: int, log: set<ReminderKey>)
    ensures Handle(DefaultOptions, tasks, today, log) == SendTaskReminders(tasks, today, 3, true, true, false, log)
  {
  }
}
