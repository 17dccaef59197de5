/** The admin dashboard: the four headline counts and the recent-tasks list. */
module AdminDashboard {
  import opened Types
  import opened Query

  /** The four stat cards. */
  datatype AdminStats = AdminStats(totalCustomers: nat, totalTasks: nat, completedTasks: nat, pendingTasks: nat)

  /** The cards count all customers, all tasks, and the completed and the
      pending tasks; those two never overlap, and the in-progress tasks make up
      the rest. */
  function Stats(customers: seq<Customer>, tasks: seq<Task>): (r: AdminStats)
    ensures r.totalCustomers == |customers| && r.totalTasks == |tasks|
    ensures r.completedTasks == multiset(Seqs.Map(tasks, (t: Task) => t.status))[Completed]
    ensures r.pendingTasks == multiset(Seqs.Map(tasks, (t: Task) => t.status))[Pending]
    ensures r.completedTasks + r.pendingTasks + CountStatus(tasks, InProgress) == r.totalTasks
    ensures r.completedTasks + r.pendingTasks <= r.totalTasks
  {
    StatusPartition(tasks);
    StatusesCounted(tasks, Completed);
    StatusesCounted(tasks, Pending);
    AdminStats(|customers|, |tasks|, CountStatus(tasks, Completed), CountStatus(tasks, Pending))
  }

  /** The "Recent Tasks" list: the first five tasks in their stored order. */
  function RecentTasks(tasks: seq<Task>): (r: seq<Task>)
    ensures |r| == if |tasks| < RecentCount then |tasks| else RecentCount
    ensures forall i :: 0 <= i < |r| ==> r[i] == tasks[i]
  {
    Recent(tasks)
  }
}
