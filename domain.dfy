/**
 * The records the dashboard stores (team members and tasks), the partial
 * records its services accept, and the rules by which a partial record is
 * completed with defaults or merged into a stored one.
 *
 * Timestamps are integers (milliseconds since 1970-01-01T00:00:00Z); the
 * services render them as ISO 8601 strings, which this model does not.
 */
module Domain {
  import opened Wrappers

  type Timestamp = int

  /** Milliseconds in one day. */
  const DayMs: int := 86400000

  datatype Role = Founder | Member
  datatype UserStatus = Active | OnLeave | Flagged | Removed
  datatype TaskType = Weekly | Custom | OneTime
  datatype Category = GrantApplication | SponsorOutreach | PartnerContact | Research | Other
  datatype TaskStatus = Pending | InProgress | Completed | Overdue

  /** A team member (founder or member). */
  datatype User = User(
    id: string,
    userId: string,
    email: string,
    name: string,
    role: Role,
    status: UserStatus,
    joinedAt: Timestamp,
    streak: int,
    missedWeeks: int)

  /** The test `user.role === 'member'`. */
  predicate HasMemberRole(u: User) {
    u.role == Member
  }

  /** A `Partial<User>` as the services receive it: every field may be missing. */
  datatype UserFields = UserFields(
    userId: Option<string>,
    email: Option<string>,
    name: Option<string>,
    role: Option<Role>,
    status: Option<UserStatus>,
    joinedAt: Option<Timestamp>,
    streak: Option<int>,
    missedWeeks: Option<int>)

  /** A task assigned to one member. */
  datatype Task = Task(
    id: string,
    userId: string,
    title: string,
    description: string,
    taskType: TaskType,
    category: Category,
    status: TaskStatus,
    dueDate: Timestamp,
    assignedAt: Timestamp,
    completedAt: Option<Timestamp>,
    weekNumber: int,
    year: int,
    aiExplanation: string,
    createdBy: string)

  /** A `Partial<Task>`: the argument of task creation and of task updates. */
  datatype TaskFields = TaskFields(
    id: Option<string>,
    userId: Option<string>,
    title: Option<string>,
    description: Option<string>,
    taskType: Option<TaskType>,
    category: Option<Category>,
    status: Option<TaskStatus>,
    dueDate: Option<Timestamp>,
    assignedAt: Option<Timestamp>,
    completedAt: Option<Timestamp>,
    weekNumber: Option<int>,
    year: Option<int>,
    aiExplanation: Option<string>,
    createdBy: Option<string>)

  /** The partial record with no field set. */
  const NoTaskFields := TaskFields(None, None, None, None, None, None, None, None, None, None, None, None, None, None)

  /** JavaScript's `x || d` on an optional string: a missing or empty string is falsy. */
  function OrText(x: Option<string>, d: string): (r: string)
    ensures x.Some? && x.value != "" ==> r == x.value
    ensures x.None? || x.value == "" ==> r == d
  {
    if x.Some? && x.value != "" then x.value else d
  }

  /** JavaScript's `x || d` on an optional number: a missing value or 0 is falsy. */
  function OrNumber(x: Option<int>, d: int): (r: int)
    ensures x.Some? && x.value != 0 ==> r == x.value
    ensures x.None? || x.value == 0 ==> r == d
  {
    if x.Some? && x.value != 0 then x.value else d
  }

  /**
   * The user record that user creation builds from a partial record: missing
   * or falsy fields fall back to '' (ids, email), "New User", role member,
   * status active, the clock reading `now`, and 0 for the two counters.
   */
  function NewUser(id: string, f: UserFields, now: Timestamp): (u: User)
    ensures u.id == id && u.name != ""
    ensures f.name.Some? && f.name.value != "" ==> u.name == f.name.value
    ensures f.email.Some? && f.email.value != "" ==> u.email == f.email.value
    ensures f.role.Some? ==> u.role == f.role.value
    ensures f.status.Some? ==> u.status == f.status.value
    ensures f.joinedAt.None? ==> u.joinedAt == now
  {
    User(
      id,
      OrText(f.userId, ""),
      OrText(f.email, ""),
      OrText(f.name, "New User"),
      f.role.GetOr(Member),
      f.status.GetOr(Active),
      f.joinedAt.GetOr(now),
      OrNumber(f.streak, 0),
      OrNumber(f.missedWeeks, 0))
  }

  /** The partial record that holds every field of `u`. */
  function UserFieldsOf(u: User): UserFields {
    UserFields(Some(u.userId), Some(u.email), Some(u.name), Some(u.role), Some(u.status),
               Some(u.joinedAt), Some(u.streak), Some(u.missedWeeks))
  }

  /** An empty partial record yields the documented defaults. */
  lemma NewUserDefaults(id: string, now: Timestamp)
    ensures NewUser(id, UserFields(None, None, None, None, None, None, None, None), now)
         == User(id, "", "", "New User", Member, Active, now, 0, 0)
  {
  }

  /**
   * Defaulting is idempotent: feeding a created user back in as a partial
   * record reproduces it, whatever the clock says the second time.
   */
  lemma NewUserIdempotent(id: string, f: UserFields, now: Timestamp, later: Timestamp)
    ensures NewUser(id, UserFieldsOf(NewUser(id, f, now)), later) == NewUser(id, f, now)
  {
  }

  /**
   * The task record that task creation builds: missing or falsy text becomes
   * '', the type `weekly`, the category `other`, the status `pending`, the
   * dates the clock reading `now`; a missing or zero week number or year is
   * replaced by the current ones. `completedAt` is copied as given.
   */
  function NewTask(id: string, f: TaskFields, now: Timestamp, currentWeek: int, currentYear: int): (t: Task)
    ensures t.id == id && t.completedAt == f.completedAt
    ensures f.weekNumber.Some? && f.weekNumber.value != 0 ==> t.weekNumber == f.weekNumber.value
    ensures f.year.Some? && f.year.value != 0 ==> t.year == f.year.value
    ensures currentWeek != 0 ==> t.weekNumber != 0
    ensures currentYear != 0 ==> t.year != 0
    ensures f.status.Some? ==> t.status == f.status.value
    ensures f.title.Some? && f.title.value != "" ==> t.title == f.title.value
  {
    Task(
      id,
      OrText(f.userId, ""),
      OrText(f.title, ""),
      OrText(f.description, ""),
      f.taskType.GetOr(Weekly),
      f.category.GetOr(Other),
      f.status.GetOr(Pending),
      f.dueDate.GetOr(now),
      f.assignedAt.GetOr(now),
      f.completedAt,
      OrNumber(f.weekNumber, currentWeek),
      OrNumber(f.year, currentYear),
      OrText(f.aiExplanation, ""),
      OrText(f.createdBy, ""))
  }

  /** An empty partial record yields the documented task defaults. */
  lemma NewTaskDefaults(id: string, now: Timestamp, week: int, year: int)
    ensures var t := NewTask(id, NoTaskFields, now, week, year);
      && t.title == "" && t.description == "" && t.userId == "" && t.createdBy == ""
      && t.taskType == Weekly && t.category == Other && t.status == Pending
      && t.completedAt.None? && t.weekNumber == week && t.year == year
  {
  }

  /** `{ ...t, ...u }`: every field present in `u` overrides the one in `t`. */
  function Merge(t: Task, u: TaskFields): (r: Task)
    ensures r.id == u.id.GetOr(t.id)
    ensures u.status.Some? ==> r.status == u.status.value
    ensures u.status.None? ==> r.status == t.status
    ensures u.completedAt.Some? ==> r.completedAt == u.completedAt
    ensures u.completedAt.None? ==> r.completedAt == t.completedAt
    ensures u.weekNumber.None? && u.year.None? ==> r.weekNumber == t.weekNumber && r.year == t.year
  {
    Task(
      u.id.GetOr(t.id),
      u.userId.GetOr(t.userId),
      u.title.GetOr(t.title),
      u.description.GetOr(t.description),
      u.taskType.GetOr(t.taskType),
      u.category.GetOr(t.category),
      u.status.GetOr(t.status),
      u.dueDate.GetOr(t.dueDate),
      u.assignedAt.GetOr(t.assignedAt),
      if u.completedAt.Some? then u.completedAt else t.completedAt,
      u.weekNumber.GetOr(t.weekNumber),
      u.year.GetOr(t.year),
      u.aiExplanation.GetOr(t.aiExplanation),
      u.createdBy.GetOr(t.createdBy))
  }

  /** Stacking two partial records: fields of `v` win over those of `u`. */
  function Override(u: TaskFields, v: TaskFields): TaskFields {
    TaskFields(
      if v.id.Some? then v.id else u.id,
      if v.userId.Some? then v.userId else u.userId,
      if v.title.Some? then v.title else u.title,
      if v.description.Some? then v.description else u.description,
      if v.taskType.Some? then v.taskType else u.taskType,
      if v.category.Some? then v.category else u.category,
      if v.status.Some? then v.status else u.status,
      if v.dueDate.Some? then v.dueDate else u.dueDate,
      if v.assignedAt.Some? then v.assignedAt else u.assignedAt,
      if v.completedAt.Some? then v.completedAt else u.completedAt,
      if v.weekNumber.Some? then v.weekNumber else u.weekNumber,
      if v.year.Some? then v.year else u.year,
      if v.aiExplanation.Some? then v.aiExplanation else u.aiExplanation,
      if v.createdBy.Some? then v.createdBy else u.createdBy)
  }

  /** An update with no fields changes nothing; repeating an update changes nothing more. */
  lemma MergeNeutralAndIdempotent(t: Task, u: TaskFields)
    ensures Merge(t, NoTaskFields) == t
    ensures Merge(Merge(t, u), u) == Merge(t, u)
  {
  }

  /** Two updates in a row are one update with the stacked partial record. */
  lemma MergeCompose(t: Task, u: TaskFields, v: TaskFields)
    ensures Merge(Merge(t, u), v) == Merge(t, Override(u, v))
  {
  }

  /** The string a category is stored as. */
  function CategoryName(c: Category): string {
    match c
    case GrantApplication => "grant_application"
    case SponsorOutreach => "sponsor_outreach"
    case PartnerContact => "partner_contact"
    case Research => "research"
    case Other => "other"
  }

  /** Distinct categories are stored as distinct strings, none of them empty. */
  lemma CategoryNameInjective(c: Category, d: Category)
    ensures CategoryName(c) != ""
    ensures CategoryName(c) == CategoryName(d) ==> c == d
  {
  }

  /** A member's completion report on one task. */
  datatype Submission = Submission(
    id: string,
    taskId: string,
    userId: string,
    submissionType: string,
    details: string,
    aiFeedback: Option<string>,
    feedbackScore: Option<int>,
    submittedAt: Timestamp)

  /** A `Partial<TaskSubmission>`. */
  datatype SubmissionFields = SubmissionFields(
    taskId: Option<string>,
    userId: Option<string>,
    submissionType: Option<string>,
    details: Option<string>,
    aiFeedback: Option<string>,
    feedbackScore: Option<int>,
    submittedAt: Option<Timestamp>)

  /**
   * The submission record that submission creation builds: missing or empty
   * text becomes '', a missing time the clock reading `now`; feedback and
   * score are copied as given.
   */
  function NewSubmission(id: string, f: SubmissionFields, now: Timestamp): (s: Submission)
    ensures s.id == id
    ensures f.details.Some? && f.details.value != "" ==> s.details == f.details.value
    ensures f.taskId.Some? && f.taskId.value != "" ==> s.taskId == f.taskId.value
    ensures s.aiFeedback == f.aiFeedback && s.feedbackScore == f.feedbackScore
    ensures f.submittedAt.None? ==> s.submittedAt == now
  {
    Submission(id, OrText(f.taskId, ""), OrText(f.userId, ""), OrText(f.submissionType, ""),
               OrText(f.details, ""), f.aiFeedback, f.feedbackScore, f.submittedAt.GetOr(now))
  }

  /**
   * `Math.round(part / whole * 100)`, or 0 for an empty whole, computed on
   * exact rationals: the nearest integer to the percentage, halves rounded up.
   */
  function RoundedPercent(part: nat, whole: nat): (r: int)
    requires part <= whole
    ensures 0 <= r <= 100
    ensures whole == 0 ==> r == 0
    ensures whole > 0 ==> 2 * r * whole - whole <= 200 * part < 2 * r * whole + whole
  {
    if whole == 0 then 0
    else
      var r := (200 * part + whole) / (2 * whole);
      RoundedPercentBounds(part, whole, r);
      r
  }

  /** Multiplying by a positive number keeps the order. */
  lemma MulMonotone(d: int, a: int, b: int)
    requires d > 0 && a <= b
    ensures d * a <= d * b
  {
    assert d * b - d * a == d * (b - a);
  }

  /** `q` is the quotient of `n` by `d` when `n` lies in `[d*q, d*q + d)`. */
  lemma QuotientIs(n: int, d: int, q: int)
    requires d > 0 && d * q <= n < d * q + d
    ensures n / d == q
  {
    var r := n / d;
    assert d * r <= n < d * r + d;
    if r < q {
      MulMonotone(d, r + 1, q);
    } else if r > q {
      MulMonotone(d, q + 1, r);
    }
  }

  lemma RoundedPercentBounds(part: nat, whole: nat, r: int)
    requires 0 < whole && part <= whole
    requires r == (200 * part + whole) / (2 * whole)
    ensures 0 <= r <= 100
    ensures 2 * r * whole - whole <= 200 * part < 2 * r * whole + whole
  {
    var n, d := 200 * part + whole, 2 * whole;
    assert 2 * r * whole == d * r;
    assert d * r <= n < d * r + d;
    if r > 100 {
      MulMonotone(d, 101, r);
    }
    if r < 0 {
      MulMonotone(d, r, -1);
    }
  }

  /** The rate is 100 when every task is done, and 0 when none is. */
  lemma RoundedPercentExtremes(part: nat, whole: nat)
    requires part <= whole
    ensures part == whole && whole > 0 ==> RoundedPercent(part, whole) == 100
    ensures part == 0 ==> RoundedPercent(part, whole) == 0
  {
    if whole > 0 {
      if part == whole {
        QuotientIs(200 * part + whole, 2 * whole, 100);
      }
      if part == 0 {
        QuotientIs(200 * part + whole, 2 * whole, 0);
      }
    }
  }
}
