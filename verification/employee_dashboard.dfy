/** The employee dashboard: the signed-in employee's task counts, their recent
    tasks, and the greeting. */
module EmployeeDashboard {
  import opened Types
  import opened Seqs
  import opened Text
  import opened Query
  import MyTasks

  /** The four stat cards. */
  datatype EmployeeStats = EmployeeStats(total: nat, completed: nat, inProgress: nat, pending: nat)

  /** The cards count the employee's tasks and those in each status; status
      being tri-state, the three status counts add up to the total. */
  function Stats(tasks: seq<Task>): (r: EmployeeStats)
    ensures r.total == |MyTasks.EmployeeTasks(tasks)|
    ensures r.completed + r.inProgress + r.pending == r.total
    ensures r.completed <= r.total && r.inProgress <= r.total && r.pending <= r.total
    ensures r.completed == multiset(Seqs.Map(MyTasks.EmployeeTasks(tasks), (t: Task) => t.status))[Completed]
    ensures r.inProgress == multiset(Seqs.Map(MyTasks.EmployeeTasks(tasks), (t: Task) => t.status))[InProgress]
    ensures r.pending == multiset(Seqs.Map(MyTasks.EmployeeTasks(tasks), (t: Task) => t.status))[Pending]
  {
    var own := MyTasks.EmployeeTasks(tasks);
    StatusPartition(own);
    StatusesCounted(own, Completed);
    StatusesCounted(own, InProgress);
    StatusesCounted(own, Pending);
    EmployeeStats(|own|, CountStatus(own, Completed), CountStatus(own, InProgress), CountStatus(own, Pending))
  }

  /** `recentTasks`: the first five of the employee's tasks, in order. */
  function RecentTasks(tasks: seq<Task>): (r: seq<Task>)
    ensures r <= MyTasks.EmployeeTasks(tasks)
    ensures |r| == if |MyTasks.EmployeeTasks(tasks)| < RecentCount then |MyTasks.EmployeeTasks(tasks)| else RecentCount
    ensures forall t :: t in r ==> t in tasks && t.employeeId == MyTasks.CurrentEmployeeId
  {
    Recent(MyTasks.EmployeeTasks(tasks))
  }

  /** The name in "Welcome back, …!": the user's name up to its first space. */
  function GreetingName(userName: string): (r: string)
    ensures r <= userName && ' ' !in r
    ensures |r| < |userName| ==> userName[|r|] == ' '
    ensures ' ' !in userName ==> r == userName
  {
    FirstWord(userName)
  }
}
