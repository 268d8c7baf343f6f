/**
 * The persistence service (`DatabaseService`) with the hosted backend
 * replaced by abstract collections: the where-clauses it builds, the way
 * the backend's `list` applies them, the records it sends to `create` and
 * `update`, and the team statistics it derives from what `list` returns.
 *
 * The backend's ordering (`orderBy`) and row limits are not modelled: a
 * listing is the matching records in collection order.
 */
module Database {
  import opened Wrappers
  import opened Seqs
  import opened Domain
  import opened IsoWeek
  import MockData

  /** One field's condition in a where-clause: none, equality, exclusion or membership. */
  datatype Cond<T> = Any | Eq(value: T) | Not(value: T) | In(values: seq<T>)

  /** Whether a field value satisfies a condition. */
  predicate Holds<T(==)>(c: Cond<T>, v: T) {
    match c
    case Any => true
    case Eq(x) => v == x
    case Not(x) => v != x
    case In(xs) => v in xs
  }

  /** The where-clause of a task listing: the owner, and a status condition. */
  datatype TaskWhere = TaskWhere(userId: string, status: Cond<TaskStatus>)

  predicate TaskMatches(w: TaskWhere, t: Task) {
    t.userId == w.userId && Holds(w.status, t.status)
  }

  /**
   * `getTasksForUser`'s where-clause: the owner always; a status condition
   * only for a non-empty list, as equality for one status and as `in` for
   * several.
   */
  function TasksForUserWhere(userId: string, statuses: Option<seq<TaskStatus>>): (w: TaskWhere)
    ensures w.userId == userId
    ensures w.status.Any? <==> statuses.None? || |statuses.value| == 0
    ensures w.status.Eq? <==> statuses.Some? && |statuses.value| == 1
    ensures w.status.In? <==> statuses.Some? && |statuses.value| > 1
  {
    if statuses.Some? && |statuses.value| > 0 then
      TaskWhere(userId, if |statuses.value| == 1 then Eq(statuses.value[0]) else In(statuses.value))
    else
      TaskWhere(userId, Any)
  }

  /**
   * The clause selects exactly the user's tasks whose status is listed, or
   * all of the user's tasks when the list is missing or empty.
   */
  lemma TasksForUserWhereSelects(userId: string, statuses: Option<seq<TaskStatus>>, t: Task)
    ensures TaskMatches(TasksForUserWhere(userId, statuses), t)
        <==> t.userId == userId && (statuses.None? || statuses.value == [] || t.status in statuses.value)
  {
    if statuses.Some? && |statuses.value| == 1 {
      assert statuses.value == [statuses.value[0]];
    }
  }

  /**
   * `getTasksForUser` against a task collection: exactly the user's tasks
   * with a listed status, or all of the user's tasks when the list is
   * missing or empty.
   */
  function GetTasksForUser(tasks: seq<Task>, userId: string, statuses: Option<seq<TaskStatus>>): (r: seq<Task>)
    ensures forall t :: t in r <==>
      t in tasks && t.userId == userId && (statuses.None? || statuses.value == [] || t.status in statuses.value)
  {
    var p := (t: Task) => TaskMatches(TasksForUserWhere(userId, statuses), t);
    var r := Filter(tasks, p);
    assert forall t :: t in r <==>
      t in tasks && t.userId == userId && (statuses.None? || statuses.value == [] || t.status in statuses.value) by {
      forall t
        ensures t in r <==>
          t in tasks && t.userId == userId && (statuses.None? || statuses.value == [] || t.status in statuses.value)
      {
        TasksForUserWhereSelects(userId, statuses, t);
        if t in tasks && p(t) {
          FilterKeeps(tasks, p, t);
        }
      }
    }
    r
  }

  /**
   * The service and the in-memory fallback return the same tasks except for
   * an empty status list, where the fallback returns none and the service
   * all of the user's tasks.
   */
  lemma TasksForUserAgreesWithFallback(tasks: seq<Task>, userId: string, statuses: Option<seq<TaskStatus>>, t: Task)
    ensures statuses != Some([]) ==>
      (t in GetTasksForUser(tasks, userId, statuses) <==> t in MockData.TasksOfUser(tasks, userId, statuses))
    ensures statuses == Some([]) ==>
      MockData.TasksOfUser(tasks, userId, statuses) == []
      && (t in GetTasksForUser(tasks, userId, statuses) <==> t in tasks && t.userId == userId)
  {
  }

  /** The where-clause of a user listing: a role and a status condition. */
  datatype UserWhere = UserWhere(role: Cond<Role>, status: Cond<UserStatus>)

  predicate UserMatches(w: UserWhere, u: User) {
    Holds(w.role, u.role) && Holds(w.status, u.status)
  }

  /** `getTeamMembers`' where-clause: role member, status not removed. */
  const TeamMembersWhere := UserWhere(Eq(Member), Not(Removed))

  /** `getTeamMembers` against a user collection. */
  function GetTeamMembers(users: seq<User>): (r: seq<User>)
    ensures forall k :: 0 <= k < |r| ==> r[k] in users && r[k].role == Member && r[k].status != Removed
    ensures forall k :: 0 <= k < |users| && users[k].role == Member && users[k].status != Removed ==> users[k] in r
  {
    Filter(users, (u: User) => UserMatches(TeamMembersWhere, u))
  }

  /**
   * After a soft removal the member is no longer listed, while the fallback's
   * member listing still shows it.
   */
  lemma RemovedMemberNotListed(users: seq<User>, k: nat)
    requires k < |users| && users[k].role == Member
    ensures var after := users[k := users[k].(status := Removed)];
      && after[k] !in GetTeamMembers(after)
      && after[k] in Filter(after, HasMemberRole)
  {
    var after := users[k := users[k].(status := Removed)];
    FilterKeeps(after, HasMemberRole, after[k]);
  }

  /** `getUserByUserId`: the first user with the external id (`limit: 1`), or none. */
  function GetUserByUserId(users: seq<User>, userId: string): (r: Option<User>)
    ensures r.Some? ==> r.value in users && r.value.userId == userId
    ensures r.None? <==> forall k :: 0 <= k < |users| ==> users[k].userId != userId
  {
    Find(users, (u: User) => u.userId == userId)
  }

  /**
   * `createTask`: the record sent to the backend, with the backend's `id`;
   * a missing or zero week number becomes the week of `today`, a missing or
   * zero year the year of `today`.
   */
  function CreateTask(id: string, f: TaskFields, today: CivilDate, now: Timestamp): (t: Task)
    requires ValidDate(today)
    ensures f.weekNumber.None? || f.weekNumber == Some(0) ==> t.weekNumber == WeekNumber(today) && 1 <= t.weekNumber <= 53
    ensures f.weekNumber.Some? && f.weekNumber.value != 0 ==> t.weekNumber == f.weekNumber.value
    ensures f.status.None? ==> t.status == Pending
    ensures f.taskType.None? ==> t.taskType == Weekly
    ensures f.category.None? ==> t.category == Other
  {
    NewTask(id, f, now, WeekNumber(today), today.year)
  }

  /** `createUser`: the record sent to the backend, with the backend's `id`. */
  function CreateUser(id: string, f: UserFields, now: Timestamp): (u: User)
    ensures f.name.None? || f.name == Some("") ==> u.name == "New User"
    ensures f.role.None? ==> u.role == Member
    ensures f.status.None? ==> u.status == Active
    ensures f.streak.None? ==> u.streak == 0
    ensures f.missedWeeks.None? ==> u.missedWeeks == 0
  {
    NewUser(id, f, now)
  }

  datatype LeaveStatus = LeavePending | Approved | Denied

  /** A `Partial<LeaveRequest>` as `updateLeaveRequest` receives it (the fields it acts on). */
  datatype LeaveFields = LeaveFields(
    status: Option<LeaveStatus>,
    approvedBy: Option<string>,
    approvalNotes: Option<string>,
    processedAt: Option<Timestamp>)

  /** What `updateLeaveRequest` sends: the update, an `updatedAt` stamp, and its own `processedAt`. */
  datatype LeaveWrite = LeaveWrite(fields: LeaveFields, updatedAt: Timestamp)

  /**
   * `updateLeaveRequest`: `processedAt` is stamped with `now` whenever the
   * update does not set the status to `pending` (also when it sets no status
   * at all), and not stamped otherwise: it is then sent as `undefined`
   * (`None` here), whatever the update held. What the backend does with an
   * `undefined` field is not part of this model.
   */
  function UpdateLeaveRequest(updates: LeaveFields, now: Timestamp): (w: LeaveWrite)
    ensures w.fields.processedAt == (if updates.status == Some(LeavePending) then None else Some(now))
    ensures w.fields.status == updates.status && w.fields.approvedBy == updates.approvedBy
    ensures w.fields.approvalNotes == updates.approvalNotes
    ensures w.updatedAt == now
  {
    LeaveWrite(updates.(processedAt := if updates.status != Some(LeavePending) then Some(now) else None), now)
  }

  /** A leave request as `list` returns it, reduced to its status. */
  datatype LeaveRequest = LeaveRequest(id: string, userId: string, status: LeaveStatus)

  /** The counters `getTeamStatistics` reports. */
  datatype TeamStatistics = TeamStatistics(
    activeMembers: nat,
    flaggedMembers: nat,
    totalTasks: nat,
    completedTasks: nat,
    completionRate: int,
    pendingLeaveRequests: nat)

  /** The where-clauses of the active and the flagged member counts. */
  const ActiveWhere := UserWhere(Eq(Member), Eq(Active))
  const FlaggedWhere := UserWhere(Eq(Member), Eq(Flagged))

  predicate IsActiveMember(u: User) {
    UserMatches(ActiveWhere, u)
  }

  predicate IsFlaggedMember(u: User) {
    UserMatches(FlaggedWhere, u)
  }

  predicate IsCompletedTask(t: Task) {
    t.status == Completed
  }

  predicate IsPendingLeave(l: LeaveRequest) {
    l.status == LeavePending
  }

  /**
   * `getTeamStatistics` over the three collections: members by status, all
   * tasks, the tasks whose status is `completed`, the rounded completion
   * percentage (0 without tasks), and pending leave requests.
   */
  function GetTeamStatistics(users: seq<User>, tasks: seq<Task>, leaves: seq<LeaveRequest>): (st: TeamStatistics)
    ensures st.totalTasks == |tasks|
    ensures st.completedTasks == |Filter(tasks, IsCompletedTask)| <= st.totalTasks
    ensures st.completionRate == RoundedPercent(st.completedTasks, st.totalTasks)
    ensures 0 <= st.completionRate <= 100
    ensures st.totalTasks == 0 ==> st.completionRate == 0
    ensures st.activeMembers == |Filter(users, IsActiveMember)|
    ensures st.flaggedMembers == |Filter(users, IsFlaggedMember)|
    ensures st.activeMembers + st.flaggedMembers <= |users|
    ensures st.pendingLeaveRequests == |Filter(leaves, IsPendingLeave)|
  {
    var active := Filter(users, IsActiveMember);
    var flagged := Filter(users, IsFlaggedMember);
    var done := Filter(tasks, IsCompletedTask);
    var pending := Filter(leaves, IsPendingLeave);
    ActiveFlaggedDisjoint(users);
    TeamStatistics(|active|, |flagged|, |tasks|, |done|, RoundedPercent(|done|, |tasks|), |pending|)
  }

  lemma {:induction false} ActiveFlaggedDisjoint(users: seq<User>)
    ensures |Filter(users, IsActiveMember)| + |Filter(users, IsFlaggedMember)| <= |users|
  {
    if users != [] {
      ActiveFlaggedDisjoint(users[1..]);
    }
  }

  /**
   * When every task is completed the rate is 100 and when none is it is 0;
   * 100 alone does not mean every task is done (199 of 200 rounds up).
   */
  lemma CompletionRateExtremes(users: seq<User>, tasks: seq<Task>, leaves: seq<LeaveRequest>)
    ensures var st := GetTeamStatistics(users, tasks, leaves);
      && (st.completedTasks == st.totalTasks > 0 ==> st.completionRate == 100)
      && (st.completedTasks == 0 ==> st.completionRate == 0)
  {
    var st := GetTeamStatistics(users, tasks, leaves);
    RoundedPercentExtremes(st.completedTasks, st.totalTasks);
  }

  /** `isUsingMockData`: the service always reports the hosted backend, never the fallback. */
  function IsUsingMockData(): (r: bool)
    ensures !r
  {
    false
  }

  lemma NinetyNinePointFiveRoundsUp()
    ensures RoundedPercent(199, 200) == 100
  {
    QuotientIs(200 * 199 + 200, 2 * 200, 100);
  }
}
