/** The employee "My Tasks" page: the signed-in employee's tasks, narrowed by
    the status select. */
module MyTasks {
  import opened Types
  import opened Seqs
  import opened Query
  import AllTasks

  /** The id the page treats as the signed-in employee. */
  const CurrentEmployeeId: string := "1"

  /** `employeeTasks`: the tasks assigned to the signed-in employee, in order. */
  function EmployeeTasks(tasks: seq<Task>): (r: seq<Task>)
    ensures IsSubseq(r, tasks)
    ensures forall t :: t in r <==> t in tasks && t.employeeId == CurrentEmployeeId
  {
    OwnTasks(tasks, CurrentEmployeeId)
  }

  /** Each task of the signed-in employee is listed as often as it occurs. */
  lemma EmployeeTasksMultiplicity(tasks: seq<Task>, t: Task)
    ensures multiset(EmployeeTasks(tasks))[t] == if t.employeeId == CurrentEmployeeId then multiset(tasks)[t] else 0
  {
    OwnTasksMultiplicity(tasks, CurrentEmployeeId, t);
  }

  /** `filteredTasks`: under "all" the employee's whole list, otherwise the
      employee's tasks in the chosen status; always drawn, in order, from the
      employee's list and so from all tasks. */
  function FilteredTasks(tasks: seq<Task>, choice: StatusChoice): (r: seq<Task>)
    ensures choice == AnyStatus ==> r == EmployeeTasks(tasks)
    ensures IsSubseq(r, EmployeeTasks(tasks)) && IsSubseq(r, tasks)
    ensures forall t :: t in r <==>
      t in tasks && t.employeeId == CurrentEmployeeId && (choice == AnyStatus || t.status == choice.status)
  {
    var own := EmployeeTasks(tasks);
    var r := if choice.AnyStatus? then own else Filter(own, (t: Task) => t.status == choice.status);
    assert IsSubseq(r, own) by {
      if choice.AnyStatus? {
        SubseqRefl(own);
      }
    }
    SubseqTransitive(r, own, tasks);
    r
  }

  /** The status select narrows the list exactly as the All Tasks page's status
      buttons would, with no search and no dates, applied to the employee's
      tasks. */
  lemma SameAsAllTasksStatusFilter(tasks: seq<Task>, choice: StatusChoice)
    ensures FilteredTasks(tasks, choice) ==
      AllTasks.FilteredTasks(EmployeeTasks(tasks), AllTasks.TaskFilters(choice, "", NoDates))
  {
    var own := EmployeeTasks(tasks);
    var f := AllTasks.TaskFilters(choice, "", NoDates);
    if choice.AnyStatus? {
      AllTasks.NoConstraintIsIdentity(own, f);
    } else {
      forall i | 0 <= i < |own| ensures (own[i].status == choice.status) == AllTasks.Keep(f, own[i]) {
        assert SearchMatches("", own[i]);
      }
      FilterExtensional(own, (t: Task) => t.status == choice.status, (t: Task) => AllTasks.Keep(f, t));
    }
  }
}
