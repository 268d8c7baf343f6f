/**
 * The member dashboard: completing a task (`handleTaskSubmission`), the
 * weekly progress figure, the status badge colours and the query for the
 * member's open tasks.
 *
 * The backend is seen only through the writes the dashboard issues, kept in
 * order in a call log; whether each awaited call succeeds is an input.
 */
module MemberDashboard {
  import opened Wrappers
  import opened Text
  import opened Domain
  import Database

  /** A write the dashboard sends to the backend. */
  datatype Call =
    | CreateSubmission(submission: SubmissionFields)
    | UpdateTask(taskId: string, updates: TaskFields)

  /** How a submission attempt ended. */
  datatype Outcome = Ignored | Failed | Done

  /** The submission record for `task` with the member's text, stamped `now`. */
  function SubmissionFor(task: Task, userId: string, text: string, now: Timestamp): (s: SubmissionFields)
    ensures s.taskId == Some(task.id) && s.userId == Some(userId) && s.details == Some(text)
    ensures s.submissionType.Some? && s.submissionType.value != ""
    ensures s.aiFeedback.None? && s.feedbackScore.None?
  {
    SubmissionFields(Some(task.id), Some(userId), Some(CategoryName(task.category)), Some(text), None, None, Some(now))
  }

  /** The update that completes a task at `now`. */
  function CompletionUpdate(now: Timestamp): TaskFields {
    NoTaskFields.(status := Some(TaskStatus.Completed), completedAt := Some(now))
  }

  /** Every completing update in the log comes right after the submission for the same task. */
  ghost predicate CompletionsFollowSubmissions(calls: seq<Call>) {
    forall i :: 0 <= i < |calls| && calls[i].UpdateTask? ==>
      0 < i && calls[i - 1].CreateSubmission? && calls[i - 1].submission.taskId == Some(calls[i].taskId)
  }

  /** The dashboard state the submission flow reads and clears, and the writes issued so far. */
  class Session {
    var selected: Option<Task>
    var text: string
    var calls: seq<Call>

    ghost predicate Valid()
      reads this
    {
      CompletionsFollowSubmissions(calls)
    }

    constructor ()
      ensures Valid() && selected.None? && text == "" && calls == []
    {
      selected := None;
      text := "";
      calls := [];
    }

    /** Choosing a task and typing the report (UI state only). */
    method Select(task: Task, report: string)
      requires Valid()
      modifies this
      ensures Valid() && selected == Some(task) && text == report && calls == old(calls)
    {
      selected := Some(task);
      text := report;
    }

    /**
     * `handleTaskSubmission`. Without a selected task, or with a report that
     * is blank after trimming, nothing happens. Otherwise the submission
     * record (the task's id, its category as submission type, the untrimmed
     * report) is written first; only if that succeeds is the task updated to
     * `completed` with a completion time; only if that and the feedback
     * request succeed are the selection and the report cleared. A failure
     * at any step stops the flow and leaves the selection in place.
     */
    method HandleTaskSubmission(userId: string, now: Timestamp, createOk: bool, updateOk: bool, feedbackOk: bool)
      returns (outcome: Outcome)
      requires Valid()
      modifies this
      ensures Valid()
      ensures old(selected).None? || Trim(old(text)) == "" ==>
        outcome == Ignored && selected == old(selected) && text == old(text) && calls == old(calls)
      ensures old(selected).Some? && Trim(old(text)) != "" ==>
        var task, sub := old(selected).value, SubmissionFor(old(selected).value, userId, old(text), now);
        && calls == old(calls) + [CreateSubmission(sub)]
                    + (if createOk then [UpdateTask(task.id, CompletionUpdate(now))] else [])
        && (outcome == Done <==> createOk && updateOk && feedbackOk)
        && (outcome == Done ==> selected.None? && text == "")
        && (outcome != Done ==> outcome == Failed && selected == old(selected) && text == old(text))
    {
      if selected.None? || Trim(text) == "" {
        return Ignored;
      }
      var task := selected.value;
      calls := calls + [CreateSubmission(SubmissionFor(task, userId, text, now))];
      if !createOk {
        return Failed;
      }
      calls := calls + [UpdateTask(task.id, CompletionUpdate(now))];
      if !updateOk || !feedbackOk {
        return Failed;
      }
      text := "";
      selected := None;
      return Done;
    }
  }

  /**
   * The records the backend stores for a non-blank report: the submission
   * keeps the report untrimmed and the task's category as its type, and the
   * completed task has status `completed` together with its completion time.
   */
  lemma SubmissionRecords(task: Task, userId: string, text: string, now: Timestamp, id: string, clock: Timestamp)
    requires Trim(text) != ""
    ensures var s := NewSubmission(id, SubmissionFor(task, userId, text, now), clock);
      && s.details == text && s.submissionType == CategoryName(task.category) && s.submittedAt == now
      && (task.id != "" ==> s.taskId == task.id)
    ensures var t := Merge(task, CompletionUpdate(now));
      && t.status == TaskStatus.Completed && t.completedAt == Some(now)
      && t.id == task.id && t.userId == task.userId && t.title == task.title
  {
    CategoryNameInjective(task.category, task.category);
    assert text != "";
  }

  /**
   * The weekly progress figure: completed tasks as a percentage of open and
   * completed ones, 0 when there are none.
   */
  function WeeklyProgress(openTasks: nat, completedTasks: nat): (p: real)
    ensures 0.0 <= p <= 100.0
    ensures completedTasks == 0 ==> p == 0.0
    ensures p == 100.0 <==> openTasks == 0 && completedTasks > 0
  {
    var total := openTasks + completedTasks;
    if total > 0 then
      var p := (completedTasks as real / total as real) * 100.0;
      ProgressBounds(openTasks, completedTasks);
      p
    else 0.0
  }

  lemma ProgressBounds(openTasks: nat, completedTasks: nat)
    requires openTasks + completedTasks > 0
    ensures var p := (completedTasks as real / (openTasks + completedTasks) as real) * 100.0;
      && 0.0 <= p <= 100.0
      && (p == 100.0 <==> openTasks == 0)
  {
    var c, t := completedTasks as real, (openTasks + completedTasks) as real;
    var q := c / t;
    assert q * t == c;
    if openTasks > 0 {
      assert c < t;
      assert q < 1.0;
    }
  }

  /** The badge colour of a task status; any other string gets the grey badge. */
  function StatusColor(status: string): (r: string)
    ensures r == "bg-gray-100 text-gray-800" <==> status !in ["pending", "in_progress", "completed", "overdue"]
  {
    if status == "pending" then "bg-yellow-100 text-yellow-800"
    else if status == "in_progress" then "bg-blue-100 text-blue-800"
    else if status == "completed" then "bg-green-100 text-green-800"
    else if status == "overdue" then "bg-red-100 text-red-800"
    else "bg-gray-100 text-gray-800"
  }

  /** The four statuses get four different colours, and none of them the fallback grey. */
  lemma StatusColorsDistinct(a: string, b: string)
    requires a in ["pending", "in_progress", "completed", "overdue"]
    requires b in ["pending", "in_progress", "completed", "overdue"]
    ensures StatusColor(a) != "bg-gray-100 text-gray-800"
    ensures StatusColor(a) == StatusColor(b) ==> a == b
  {
  }

  /** The statuses the open-task list asks for. */
  const OpenStatuses: seq<TaskStatus> := [Pending, InProgress]

  /** The open-task query selects exactly the member's pending and in-progress tasks. */
  lemma OpenTasksQuery(userId: string, t: Task)
    ensures Database.TasksForUserWhere(userId, Some(OpenStatuses)).status == Database.In(OpenStatuses)
    ensures Database.TaskMatches(Database.TasksForUserWhere(userId, Some(OpenStatuses)), t)
        <==> t.userId == userId && (t.status == Pending || t.status == InProgress)
  {
    Database.TasksForUserWhereSelects(userId, Some(OpenStatuses), t);
  }
}
