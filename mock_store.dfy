/**
 * The in-memory fallback store (`mockDataService`): three module-level arrays
 * of users, open tasks and completed tasks, appended to and updated in place,
 * with linear-scan queries over them.
 *
 * Record ids (`user_<ms>`, `task_<ms>`) and clock readings are parameters.
 */
module MockData {
  import opened Wrappers
  import opened Seqs
  import opened Domain
  import IsoWeek

  /** The counters `getStatistics` reports. */
  datatype Statistics = Statistics(
    activeMembers: nat,
    flaggedMembers: nat,
    totalTasks: nat,
    completedTasks: nat,
    completionRate: int)

  /** JavaScript's `slice(0, end)` on a sequence: a negative end counts from the back. */
  function SliceTo<T>(s: seq<T>, end: int): (r: seq<T>)
    ensures r <= s
    ensures end >= 0 ==> |r| == if end < |s| then end else |s|
    ensures end < 0 ==> |r| == if |s| + end > 0 then |s| + end else 0
  {
    if end >= 0 then (if end < |s| then s[..end] else s)
    else if |s| + end > 0 then s[..|s| + end]
    else []
  }

  /** The test `task.userId === userId`. */
  function OwnedBy(userId: string): Task -> bool {
    (t: Task) => t.userId == userId
  }

  /** The test `status.includes(task.status)`. */
  function StatusIn(statuses: seq<TaskStatus>): Task -> bool {
    (t: Task) => t.status in statuses
  }

  /** The test `task.weekNumber === weekNumber && task.year === year`. */
  function InWeek(weekNumber: int, year: int): Task -> bool {
    (t: Task) => t.weekNumber == weekNumber && t.year == year
  }

  /** A member counted as active: role member, status active and not removed. */
  predicate ActiveMember(u: User) {
    u.role == Member && u.status == Active && u.status != Removed
  }

  /** A member counted as flagged: role member, status flagged and not removed. */
  predicate FlaggedMember(u: User) {
    u.role == Member && u.status == Flagged && u.status != Removed
  }

  /**
   * The open tasks of one user, in store order, keeping only the listed
   * statuses when a list is given. An empty list is still a list (`if
   * (status)` is true for `[]`), so it keeps nothing.
   */
  function TasksOfUser(tasks: seq<Task>, userId: string, statuses: Option<seq<TaskStatus>>): (r: seq<Task>)
    ensures statuses.None? ==> r == Filter(tasks, OwnedBy(userId))
    ensures statuses.Some? ==> r == Filter(Filter(tasks, OwnedBy(userId)), StatusIn(statuses.value))
    ensures forall k :: 0 <= k < |r| ==> r[k] in tasks && r[k].userId == userId
    ensures statuses.Some? ==> forall k :: 0 <= k < |r| ==> r[k].status in statuses.value
    ensures statuses == Some([]) ==> r == []
    ensures forall k :: (0 <= k < |tasks| && tasks[k].userId == userId
              && (statuses.None? || tasks[k].status in statuses.value)) ==> tasks[k] in r
  {
    var mine := Filter(tasks, OwnedBy(userId));
    if statuses.Some? then
      var r := Filter(mine, StatusIn(statuses.value));
      assert forall k :: (0 <= k < |tasks| && tasks[k].userId == userId
              && tasks[k].status in statuses.value) ==> tasks[k] in r by {
        forall k | 0 <= k < |tasks| && tasks[k].userId == userId && tasks[k].status in statuses.value
          ensures tasks[k] in r
        {
          FilterKeeps(mine, StatusIn(statuses.value), tasks[k]);
        }
      }
      if statuses.value == [] then
        FilterNone(mine, StatusIn(statuses.value));
        r
      else r
    else mine
  }

  class MockStore {
    var users: seq<User>
    var tasks: seq<Task>
    var completedTasks: seq<Task>
    /** The week number and year of the day the module was loaded, fixed from then on. */
    const currentWeek: int
    const currentYear: int

    /**
     * A store seeded with the given records, loaded on `loadDay`: its
     * current week and year are computed once, here, and never again.
     */
    constructor (seedUsers: seq<User>, seedTasks: seq<Task>, seedCompleted: seq<Task>, loadDay: IsoWeek.CivilDate)
      requires IsoWeek.ValidDate(loadDay)
      ensures users == seedUsers && tasks == seedTasks && completedTasks == seedCompleted
      ensures currentWeek == IsoWeek.WeekNumber(loadDay) && currentYear == loadDay.year
      ensures 1 <= currentWeek <= 53
    {
      users := seedUsers;
      tasks := seedTasks;
      completedTasks := seedCompleted;
      currentWeek := IsoWeek.WeekNumber(loadDay);
      currentYear := loadDay.year;
    }

    /** `getUserByUserId`: the first user with the external id, or none. */
    function GetUserByUserId(userId: string): (r: Option<User>)
      reads this
      ensures r.Some? ==> r.value in users && r.value.userId == userId
      ensures r.None? <==> forall k :: 0 <= k < |users| ==> users[k].userId != userId
      ensures r.Some? ==> exists k :: 0 <= k < |users| && users[k] == r.value
                                      && forall j :: 0 <= j < k ==> users[j].userId != userId
    {
      var i := FindIndex(users, (u: User) => u.userId == userId);
      if i.Some? then Some(users[i.value]) else None
    }

    /** `getTeamMembers`: the users whose role is member, in store order; removed ones included. */
    function GetTeamMembers(): (r: seq<User>)
      reads this
      ensures r == Filter(users, HasMemberRole)
      ensures forall k :: 0 <= k < |r| ==> r[k] in users && r[k].role == Member
      ensures forall k :: 0 <= k < |users| && users[k].role == Member ==> users[k] in r
    {
      Filter(users, HasMemberRole)
    }

    /** `createUser`: appends one user built from the partial record with its defaults. */
    method CreateUser(f: UserFields, newId: string, now: Timestamp) returns (u: User)
      modifies this
      ensures u == NewUser(newId, f, now)
      ensures users == old(users) + [u]
      ensures tasks == old(tasks) && completedTasks == old(completedTasks)
    {
      u := NewUser(newId, f, now);
      users := users + [u];
    }

    /**
     * `removeMember`: soft-deletes the first user with the given record id by
     * setting its status to `removed`; reports whether there was one.
     */
    method RemoveMember(memberId: string) returns (found: bool)
      modifies this
      ensures found <==> exists k :: 0 <= k < |old(users)| && old(users)[k].id == memberId
      ensures |users| == |old(users)|
      ensures found ==> exists k :: 0 <= k < |users| && old(users)[k].id == memberId
                         && (forall j :: 0 <= j < k ==> old(users)[j].id != memberId)
                         && users == old(users)[k := old(users)[k].(status := Removed)]
      ensures !found ==> users == old(users)
      ensures tasks == old(tasks) && completedTasks == old(completedTasks)
    {
      var i := FindIndex(users, (u: User) => u.id == memberId);
      if i.Some? {
        users := users[i.value := users[i.value].(status := Removed)];
        found := true;
      } else {
        found := false;
      }
    }

    /** `getTasksForUser`: the open tasks of one user, filtered by status when a list is given. */
    function GetTasksForUser(userId: string, statuses: Option<seq<TaskStatus>>): (r: seq<Task>)
      reads this
      ensures r == TasksOfUser(tasks, userId, statuses)
    {
      TasksOfUser(tasks, userId, statuses)
    }

    /**
     * `getCompletedTasksForUser`: the completed tasks of one user, cut to the
     * first `limit` when a limit other than 0 is given (JavaScript `slice`).
     */
    function GetCompletedTasksForUser(userId: string, limit: Option<int>): (r: seq<Task>)
      reads this
      ensures var all := Filter(completedTasks, (t: Task) => t.userId == userId);
        && r <= all
        && (limit.None? || limit.value == 0 ==> r == all)
        && (limit.Some? && limit.value > 0 ==> |r| == if limit.value < |all| then limit.value else |all|)
    {
      var mine := Filter(completedTasks, (t: Task) => t.userId == userId);
      if limit.Some? && limit.value != 0 then SliceTo(mine, limit.value) else mine
    }

    /** `getWeeklyTasks`: open tasks, then completed ones, of the given week and year. */
    function GetWeeklyTasks(weekNumber: int, year: int): (r: seq<Task>)
      reads this
      ensures forall k :: 0 <= k < |r| ==>
                (r[k] in tasks || r[k] in completedTasks) && r[k].weekNumber == weekNumber && r[k].year == year
      ensures forall t :: t in tasks + completedTasks && t.weekNumber == weekNumber && t.year == year ==> t in r
      ensures r == Filter(tasks, InWeek(weekNumber, year)) + Filter(completedTasks, InWeek(weekNumber, year))
    {
      var r := Filter(tasks + completedTasks, InWeek(weekNumber, year));
      FilterAppend(tasks, completedTasks, InWeek(weekNumber, year));
      assert forall t :: t in tasks + completedTasks && t.weekNumber == weekNumber && t.year == year ==> t in r by {
        forall t | t in tasks + completedTasks && t.weekNumber == weekNumber && t.year == year ensures t in r {
          FilterKeeps(tasks + completedTasks, InWeek(weekNumber, year), t);
        }
      }
      r
    }

    /**
     * `createTask`: appends one task built from the partial record with its
     * defaults to the open tasks, never to the completed ones; a missing
     * week or year is the one fixed when the store was loaded.
     */
    method CreateTask(f: TaskFields, newId: string, now: Timestamp) returns (t: Task)
      modifies this
      ensures t == NewTask(newId, f, now, currentWeek, currentYear)
      ensures tasks == old(tasks) + [t]
      ensures users == old(users) && completedTasks == old(completedTasks)
    {
      t := NewTask(newId, f, now, currentWeek, currentYear);
      tasks := tasks + [t];
    }

    /**
     * `updateTask`: merges the update into the first open task with the id,
     * else into the first completed task with it; returns the merged task, or
     * none (changing nothing) when neither list holds the id.
     */
    method UpdateTask(taskId: string, updates: TaskFields) returns (r: Option<Task>)
      modifies this
      ensures users == old(users)
      ensures match FindIndex(old(tasks), (t: Task) => t.id == taskId)
        case Some(i) =>
          && tasks == old(tasks)[i := Merge(old(tasks)[i], updates)]
          && completedTasks == old(completedTasks)
          && r == Some(tasks[i])
        case None =>
          && tasks == old(tasks)
          && match FindIndex(old(completedTasks), (t: Task) => t.id == taskId)
             case Some(j) =>
               && completedTasks == old(completedTasks)[j := Merge(old(completedTasks)[j], updates)]
               && r == Some(completedTasks[j])
             case None =>
               && completedTasks == old(completedTasks)
               && r.None?
    {
      var i := FindIndex(tasks, (t: Task) => t.id == taskId);
      if i.Some? {
        tasks := tasks[i.value := Merge(tasks[i.value], updates)];
        return Some(tasks[i.value]);
      }
      var j := FindIndex(completedTasks, (t: Task) => t.id == taskId);
      if j.Some? {
        completedTasks := completedTasks[j.value := Merge(completedTasks[j.value], updates)];
        return Some(completedTasks[j.value]);
      }
      return None;
    }

    /**
     * `getStatistics`: active and flagged members, all tasks in both lists,
     * the completed list's length, and the rounded completion percentage.
     */
    function GetStatistics(): (st: Statistics)
      reads this
      ensures st.totalTasks == |tasks| + |completedTasks| && st.completedTasks == |completedTasks|
      ensures 0 <= st.completionRate <= 100
      ensures st.totalTasks == 0 ==> st.completionRate == 0
      ensures st.activeMembers == |Filter(users, ActiveMember)|
      ensures st.flaggedMembers == |Filter(users, FlaggedMember)|
      ensures st.completionRate == RoundedPercent(st.completedTasks, st.totalTasks)
      ensures st.activeMembers + st.flaggedMembers <= |users|
    {
      var active := Filter(users, ActiveMember);
      var flagged := Filter(users, FlaggedMember);
      MemberCountsDisjoint(users);
      var total := |tasks| + |completedTasks|;
      Statistics(|active|, |flagged|, total, |completedTasks|, RoundedPercent(|completedTasks|, total))
    }
  }

  /** No member is counted both active and flagged, so the two counts fit in the user list. */
  lemma {:induction false} MemberCountsDisjoint(users: seq<User>)
    ensures |Filter(users, ActiveMember)| + |Filter(users, FlaggedMember)| <= |users|
  {
    if users != [] {
      MemberCountsDisjoint(users[1..]);
    }
  }
}
