/**
 * The founder dashboard's ask bar (`processAiCommand`): keyword tests on the
 * lower-cased prompt decide whether tasks are assigned, with which category
 * and type, and whether a report notification is shown; the assignment then
 * issues one task-creation request per active team member.
 *
 * The advisory text the generator returns is passed in by the dashboard but
 * never read, so it is not a parameter here.
 */
module AskBar {
  import opened Wrappers
  import opened Text
  import opened Seqs
  import opened Domain
  import opened IsoWeek

  /** What a classified prompt asks for. */
  datatype Assignment = Assignment(category: Category, taskType: TaskType)
  datatype Command = Command(assign: Option<Assignment>, report: bool)

  /** Category by the first keyword found: grant, then sponsor, then partner. */
  function CategoryOf(lower: string): Category {
    if Includes(lower, "grant") then GrantApplication
    else if Includes(lower, "sponsor") then SponsorOutreach
    else if Includes(lower, "partner") then PartnerContact
    else Other
  }

  /** Type `custom` for "custom" or "one-time", `weekly` otherwise. */
  function TypeOf(lower: string): TaskType {
    if Includes(lower, "custom") || Includes(lower, "one-time") then Custom else Weekly
  }

  /** The classification of a founder prompt. */
  function Classify(prompt: string): (c: Command)
    ensures c.assign.Some? ==> c.assign.value.category != Research && c.assign.value.taskType != OneTime
  {
    var lower := ToLower(prompt);
    Command(
      if Includes(lower, "assign") && Includes(lower, "task")
      then Some(Assignment(CategoryOf(lower), TypeOf(lower)))
      else None,
      Includes(lower, "report") || Includes(lower, "summary"))
  }

  /**
   * What classification promises: tasks are assigned exactly when the
   * lower-cased prompt holds both "assign" and "task"; the category follows
   * the first matching keyword and is never `research`; the type is `custom`
   * exactly for "custom" or "one-time" and never `one_time`; the report flag
   * depends only on "report"/"summary", not on the assignment decision.
   */
  lemma ClassifySpec(prompt: string)
    ensures var lower, c := ToLower(prompt), Classify(prompt);
      && (c.assign.Some? <==> Includes(lower, "assign") && Includes(lower, "task"))
      && (c.report <==> Includes(lower, "report") || Includes(lower, "summary"))
      && (c.assign.Some? ==>
            && c.assign.value.category != Research
            && c.assign.value.taskType != OneTime
            && (c.assign.value.category == GrantApplication <==> Includes(lower, "grant"))
            && (c.assign.value.category == SponsorOutreach <==>
                  !Includes(lower, "grant") && Includes(lower, "sponsor"))
            && (c.assign.value.category == PartnerContact <==>
                  !Includes(lower, "grant") && !Includes(lower, "sponsor") && Includes(lower, "partner"))
            && (c.assign.value.category == Other <==>
                  !Includes(lower, "grant") && !Includes(lower, "sponsor") && !Includes(lower, "partner"))
            && (c.assign.value.taskType == Custom <==> Includes(lower, "custom") || Includes(lower, "one-time")))
  {
  }

  /**
   * Matching ignores case: a prompt that contains the two keywords in any
   * capitalisation is classified as an assignment.
   */
  lemma ClassifyIgnoresCase(prompt: string, assign: string, task: string)
    requires ToLower(assign) == "assign" && ToLower(task) == "task"
    requires Includes(prompt, assign) && Includes(prompt, task)
    ensures Classify(prompt).assign.Some?
  {
    IncludesLower(prompt, assign);
    IncludesLower(prompt, task);
  }

  /** The title, description and explanation of a created task. */
  datatype Template = Template(title: string, description: string, explanation: string)

  const GrantTemplate := Template("Weekly Grant Application Task",
    "Research and apply to at least 2 relevant grants for ClearVision Foundation. Focus on grants that align with our mission and programs.",
    "Grant applications are crucial for nonprofit funding. Research foundations that support causes similar to ours, read their guidelines carefully, and submit compelling applications that demonstrate our impact and need.")

  const SponsorTemplate := Template("Weekly Sponsor Outreach Task",
    "Contact at least 5 potential sponsors including local businesses, corporations, or community organizations for partnership opportunities.",
    "Sponsor outreach helps diversify our funding sources. Focus on businesses that align with our values, prepare personalized pitches, and follow up professionally. Track all contacts and responses.")

  const TeamTemplate := Template("Weekly Team Task",
    "Complete assigned weekly responsibilities to support ClearVision Foundation operations.",
    "This task supports our foundation's ongoing operations. Please complete it thoroughly and submit your progress by the due date.")

  /** The task text for a category: grant and sponsor have their own, every other category shares one. */
  function TemplateFor(c: Category): (t: Template)
    ensures t.title != "" && t.description != "" && t.explanation != ""
    ensures t.title == "Weekly Team Task" <==> c != GrantApplication && c != SponsorOutreach
  {
    if c == GrantApplication then GrantTemplate
    else if c == SponsorOutreach then SponsorTemplate
    else TeamTemplate
  }

  /** Partner contact, research and other all fall back to the generic team task. */
  lemma TemplateFallback(c: Category)
    requires c != GrantApplication && c != SponsorOutreach
    ensures TemplateFor(c) == TemplateFor(Other) && TemplateFor(c).title == "Weekly Team Task"
  {
  }

  /** The members tasks are assigned to: those whose status is `active`. */
  function ActiveMembers(members: seq<User>): seq<User> {
    Filter(members, (m: User) => m.status == Active)
  }

  /** The fields one assignment shares across all its tasks. */
  datatype Batch = Batch(assignment: Assignment, due: Timestamp, assignedAt: Timestamp,
                         week: int, year: int, creator: string)

  /** The batch an assignment at time `now` on day `today` uses: due one week later. */
  function BatchFor(a: Assignment, today: CivilDate, now: Timestamp, creator: string): Batch
    requires ValidDate(today)
  {
    Batch(a, now + 7 * DayMs, now, WeekNumber(today), today.year, creator)
  }

  /** The creation request sent for one member. */
  function RequestFor(member: User, b: Batch): TaskFields {
    var tpl := TemplateFor(b.assignment.category);
    TaskFields(None, Some(member.userId), Some(tpl.title), Some(tpl.description),
               Some(b.assignment.taskType), Some(b.assignment.category), Some(Pending),
               Some(b.due), Some(b.assignedAt), None,
               Some(b.week), Some(b.year), Some(tpl.explanation), Some(b.creator))
  }

  /**
   * `processAiCommand`: classify the prompt and, for an assignment, issue one
   * task-creation request per active member, in team order. All requests
   * share status `pending`, the due date one week after `now`, the week
   * number and year of `today`, the category, the type and the creator; each
   * names its own member. `reportToast` tells whether the report
   * notification is shown.
   */
  method AssignTasks(prompt: string, members: seq<User>, today: CivilDate, now: Timestamp, creator: string)
    returns (requests: seq<TaskFields>, reportToast: bool)
    requires ValidDate(today)
    ensures var c := Classify(prompt);
      && reportToast == c.report
      && (c.assign.None? ==> requests == [])
      && (c.assign.Some? ==>
            && |requests| == |ActiveMembers(members)|
            && forall k :: 0 <= k < |requests| ==>
                 requests[k] == RequestFor(ActiveMembers(members)[k], BatchFor(c.assign.value, today, now, creator)))
  {
    var command := Classify(prompt);
    requests := [];
    if command.assign.Some? {
      var targets := ActiveMembers(members);
      var batch := BatchFor(command.assign.value, today, now, creator);
      var i := 0;
      while i < |targets|
        invariant 0 <= i <= |targets|
        invariant |requests| == i
        invariant forall k :: 0 <= k < i ==> requests[k] == RequestFor(targets[k], batch)
      {
        requests := requests + [RequestFor(targets[i], batch)];
        i := i + 1;
      }
    }
    reportToast := command.report;
  }

  /**
   * The records the backend creates from the requests carry the member's id,
   * status `pending`, no completion time, the due date one week after the
   * assignment time, and the week number of `today` (never replaced by the
   * default, since it is at least 1).
   */
  lemma CreatedTaskFields(member: User, a: Assignment, today: CivilDate, now: Timestamp, creator: string,
                          id: string, clock: Timestamp, currentWeek: int, currentYear: int)
    requires ValidDate(today) && today.year != 0
    ensures var t := NewTask(id, RequestFor(member, BatchFor(a, today, now, creator)), clock, currentWeek, currentYear);
      && t.userId == member.userId && t.createdBy == creator
      && t.status == Pending && t.completedAt.None?
      && t.category == a.category && t.taskType == a.taskType
      && t.title == TemplateFor(a.category).title
      && t.dueDate == t.assignedAt + 7 * DayMs
      && t.weekNumber == WeekNumber(today) && t.year == today.year
  {
  }

  /**
   * The week number is the ISO week but the year is the calendar year, so an
   * assignment on 1 January 2023 (ISO week 52 of 2022) and one on 25
   * December 2023 (ISO week 52 of 2023) carry the same week and year.
   */
  lemma WeekTagCollision(a: Assignment, b: Assignment, now: Timestamp, later: Timestamp, creator: string)
    ensures var early, late := BatchFor(a, CivilDate(2023, 1, 1), now, creator),
                               BatchFor(b, CivilDate(2023, 12, 25), later, creator);
      && early.week == late.week == 52 && early.year == late.year == 2023
      && ThursdayYear(CivilDate(2023, 1, 1)) == 2022 && ThursdayYear(CivilDate(2023, 12, 25)) == 2023
  {
    NewYear2023();
    JanFirstClosedForm(2023);
    JanFirstClosedForm(2024);
    assert DayNumber(CivilDate(2023, 12, 25)) == 19716;
  }

  /** Every member who receives a task is active, so removed members receive none. */
  lemma OnlyActiveMembersAssigned(members: seq<User>)
    ensures forall k :: 0 <= k < |ActiveMembers(members)| ==>
      ActiveMembers(members)[k] in members && ActiveMembers(members)[k].status == Active
    ensures forall k :: 0 <= k < |members| && members[k].status == Active ==> members[k] in ActiveMembers(members)
  {
  }

  /**
   * The overview's "Active Members" and "Flagged Members" tiles: the
   * `status != 'removed'` test they add is redundant, so the active tile
   * equals the number of tasks an assignment creates.
   */
  function OverviewCounts(members: seq<User>): (counts: (nat, nat))
    ensures counts.0 == |ActiveMembers(members)|
    ensures counts.1 == |Filter(members, (m: User) => m.status == Flagged)|
  {
    var active := Filter(members, (m: User) => m.status == Active && m.status != Removed);
    var flagged := Filter(members, (m: User) => m.status == Flagged && m.status != Removed);
    FilterCongruent(members, (m: User) => m.status == Active && m.status != Removed, (m: User) => m.status == Active);
    FilterCongruent(members, (m: User) => m.status == Flagged && m.status != Removed, (m: User) => m.status == Flagged);
    (|active|, |flagged|)
  }
}
