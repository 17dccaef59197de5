/** The filter predicates and projections shared by the pages: the date-range
    test (written out twice in the source, at AllTasks.tsx and Customers.tsx),
    the status and customer-type choices where "all" means no constraint, the
    free-text search, per-employee scoping, status counts, the recent-tasks
    prefix and the two status display labels. */
module Query {
  import opened Wrappers
  import opened Types
  import opened Text
  import opened Seqs

  /** The optional `fromDate`/`toDate` pair picked in the calendars. */
  datatype DateRange = DateRange(from: Option<Timestamp>, to: Option<Timestamp>)

  /** No bound picked: the initial state, and the state `clearFilters` restores. */
  const NoDates: DateRange := DateRange(None, None)

  /** date-fns `isWithinInterval` for the interval [start, end]. */
  function WithinInterval(at: Timestamp, start: Timestamp, end: Timestamp): bool
  {
    start <= at && at <= end
  }

  /** The three-way date test of both filter pages. Whatever combination of
      bounds is set, it amounts to checking each bound that is present, both
      inclusively. */
  function InRange(d: DateRange, at: Timestamp): (r: bool)
    ensures r <==> (d.from.None? || d.from.value <= at) && (d.to.None? || at <= d.to.value)
  {
    if d.from.Some? && d.to.Some? then WithinInterval(at, d.from.value, d.to.value)
    else if d.from.Some? then at >= d.from.value
    else if d.to.Some? then at <= d.to.value
    else true
  }

  /** The four cases one by one: both bounds give a closed interval, one bound
      a one-sided inclusive check, no bound no constraint. */
  lemma InRangeCases(d: DateRange, at: Timestamp)
    ensures d.from.Some? && d.to.Some? ==> (InRange(d, at) <==> d.from.value <= at <= d.to.value)
    ensures d.from.Some? && d.to.None? ==> (InRange(d, at) <==> at >= d.from.value)
    ensures d.from.None? && d.to.Some? ==> (InRange(d, at) <==> at <= d.to.value)
    ensures d.from.None? && d.to.None? ==> InRange(d, at)
  {
  }

  /** Relaxing a bound, or dropping it, never excludes a record the tighter
      range kept. */
  lemma InRangeMonotone(tight: DateRange, loose: DateRange, at: Timestamp)
    requires loose.from.Some? ==> tight.from.Some? && loose.from.value <= tight.from.value
    requires loose.to.Some? ==> tight.to.Some? && tight.to.value <= loose.to.value
    ensures InRange(tight, at) ==> InRange(loose, at)
  {
  }

  /** The status buttons and select: `'all'` or one status. */
  datatype StatusChoice = AnyStatus | OnlyStatus(status: TaskStatus)

  /** The string the page keeps for a status choice. `'all'` is no status
      key, and every other value reads back as the chosen status. */
  function StatusFilterValue(c: StatusChoice): (v: string)
    ensures v == "all" <==> c == AnyStatus
    ensures c.OnlyStatus? ==> ParseStatus(v) == Some(c.status)
  {
    match c
    case AnyStatus => "all"
    case OnlyStatus(st) => StatusKey(st)
  }

  /** `statusFilter === 'all' || task.status === statusFilter`: comparing the
      stored strings is the same as comparing the statuses. */
  function StatusMatches(c: StatusChoice, t: Task): (r: bool)
    ensures r <==> StatusFilterValue(c) == "all" || StatusKey(t.status) == StatusFilterValue(c)
    ensures r <==> c == AnyStatus || c == OnlyStatus(t.status)
  {
    assert ParseStatus(StatusKey(t.status)) == Some(t.status);
    c.AnyStatus? || t.status == c.status
  }

  /** The customer-type buttons: `'all'` or one customer type. */
  datatype TypeChoice = AnyType | OnlyType(customerType: CustomerType)

  /** The string the page keeps for a type choice. `'all'` is no type key,
      and every other value reads back as the chosen type. */
  function TypeFilterValue(c: TypeChoice): (v: string)
    ensures v == "all" <==> c == AnyType
    ensures c.OnlyType? ==> ParseCustomerType(v) == Some(c.customerType)
  {
    match c
    case AnyType => "all"
    case OnlyType(ct) => CustomerTypeKey(ct)
  }

  /** `activeType === 'all' || customer.customerType === activeType`:
      comparing the stored strings is the same as comparing the types. */
  function TypeMatches(c: TypeChoice, customer: Customer): (r: bool)
    ensures r <==> TypeFilterValue(c) == "all" || CustomerTypeKey(customer.customerType) == TypeFilterValue(c)
    ensures r <==> c == AnyType || c == OnlyType(customer.customerType)
  {
    assert ParseCustomerType(CustomerTypeKey(customer.customerType)) == Some(customer.customerType);
    c.AnyType? || customer.customerType == c.customerType
  }

  /** The task fields the search box looks in; the description is not one. */
  function SearchedFields(t: Task): seq<string>
  {
    [t.customerName, t.employeeName, t.service]
  }

  /** Case-insensitive search: some searched field contains the query,
      both lowered. The empty query is contained in every field. */
  function SearchMatches(query: string, t: Task): (r: bool)
    ensures r <==> exists k :: 0 <= k < |SearchedFields(t)| && Includes(Lower(SearchedFields(t)[k]), Lower(query))
  {
    if query == "" then
      assert Includes(Lower(SearchedFields(t)[0]), Lower(query)) by {
        assert OccursAt(Lower(t.customerName), Lower(query), 0);
      }
      true
    else
      var q := Lower(query);
      assert SearchedFields(t)[0] == t.customerName;
      assert SearchedFields(t)[1] == t.employeeName;
      assert SearchedFields(t)[2] == t.service;
      Includes(Lower(t.customerName), q)
      || Includes(Lower(t.employeeName), q)
      || Includes(Lower(t.service), q)
  }

  /** Only the lowered query matters: queries that differ in letter case
      select the same tasks. */
  lemma SearchIgnoresCase(q1: string, q2: string, t: Task)
    requires Lower(q1) == Lower(q2)
    ensures SearchMatches(q1, t) == SearchMatches(q2, t)
  {
  }

  /** The description is never searched. */
  lemma SearchIgnoresDescription(query: string, t: Task, d: string)
    ensures SearchMatches(query, t.(description := d)) == SearchMatches(query, t)
  {
    assert SearchedFields(t.(description := d)) == SearchedFields(t);
  }

  /** Tasks in status `st`, as a predicate for `filter`. */
  function HasStatus(st: TaskStatus): Task -> bool
  {
    (t: Task) => t.status == st
  }

  /** `tasks.filter(task => task.status === st).length`. */
  function CountStatus(tasks: seq<Task>, st: TaskStatus): (n: nat)
    ensures n <= |tasks|
  {
    |Filter(tasks, HasStatus(st))|
  }

  /** A status count is the multiplicity of that status among the tasks'
      statuses. */
  lemma {:induction false} StatusesCounted(tasks: seq<Task>, st: TaskStatus)
    ensures CountStatus(tasks, st) == multiset(Map(tasks, (t: Task) => t.status))[st]
    decreases |tasks|
  {
    if tasks != [] {
      StatusesCounted(tasks[1..], st);
      var f := (t: Task) => t.status;
      assert Map(tasks, f) == [tasks[0].status] + Map(tasks[1..], f);
    }
  }

  /** Status is tri-state, so the three counts partition the list. */
  lemma {:induction false} StatusPartition(tasks: seq<Task>)
    ensures CountStatus(tasks, Pending) + CountStatus(tasks, InProgress) + CountStatus(tasks, Completed) == |tasks|
    decreases |tasks|
  {
    if tasks != [] {
      StatusPartition(tasks[1..]);
    }
  }

  /** The tasks assigned to `employeeId`, in their original order. */
  function OwnTasks(tasks: seq<Task>, employeeId: string): (r: seq<Task>)
    ensures IsSubseq(r, tasks)
    ensures forall t :: t in r <==> t in tasks && t.employeeId == employeeId
  {
    Filter(tasks, (t: Task) => t.employeeId == employeeId)
  }

  /** Each of the employee's tasks is kept as often as it occurs; no other
      employee's task is. */
  lemma OwnTasksMultiplicity(tasks: seq<Task>, employeeId: string, t: Task)
    ensures multiset(OwnTasks(tasks, employeeId))[t] == if t.employeeId == employeeId then multiset(tasks)[t] else 0
  {
    FilterMultiplicity(tasks, (t: Task) => t.employeeId == employeeId, t);
  }

  /** How many tasks the dashboards list as recent. */
  const RecentCount: nat := 5

  /** `slice(0, 5)`: the first five records, or all of them when fewer. */
  function Recent<T>(s: seq<T>): (r: seq<T>)
    ensures |r| == if |s| < RecentCount then |s| else RecentCount
    ensures r <= s
  {
    Take(s, RecentCount)
  }

  /** A task status's display name on the status badge. */
  function StatusName(st: TaskStatus): string
  {
    match st
    case Pending => "Pending"
    case InProgress => "In Progress"
    case Completed => "Completed"
  }

  /** `getStatusBadge`: the badge text for a status string. A recognised
      status key shows its display name; anything else shows as given. */
  function BadgeLabel(status: string): (r: string)
    ensures ParseStatus(status).Some? ==> r == StatusName(ParseStatus(status).value)
    ensures ParseStatus(status).None? ==> r == status
  {
    if status == "completed" then "Completed"
    else if status == "in_progress" then "In Progress"
    else if status == "pending" then "Pending"
    else status
  }

  /** The dashboards' status pill: the first `_` of the key becomes a space
      and the first character is upper-cased. */
  function StatusPill(st: TaskStatus): (r: string)
    ensures st == Pending ==> r == "Pending"
    ensures st == InProgress ==> r == "In progress"
    ensures st == Completed ==> r == "Completed"
  {
    PillSpacing(st);
    CapitalizedKeys();
    Capitalize(ReplaceFirst(StatusKey(st), '_', ' '))
  }

  /** The underscore-to-space step of the pill for each status key. */
  lemma PillSpacing(st: TaskStatus)
    ensures ReplaceFirst(StatusKey(st), '_', ' ') == match st
      case Pending => "pending"
      case InProgress => "in progress"
      case Completed => "completed"
  {
    match st
    case Pending =>
      assert '_' !in "pending";
    case InProgress =>
      assert "in_progress"[..2] == "in";
      ReplaceFirstAt("in_progress", '_', ' ', 2);
      assert "in_progress"[3..] == "progress";
    case Completed =>
      assert '_' !in "completed";
  }

  lemma CapitalizedKeys()
    ensures Capitalize("pending") == "Pending"
    ensures Capitalize("in progress") == "In progress"
    ensures Capitalize("completed") == "Completed"
  {
    assert UpperChar('p') == 'P' && UpperChar('i') == 'I' && UpperChar('c') == 'C';
  }

  /** The pill and the badge disagree on in-progress tasks ("In progress"
      against "In Progress") and agree on the other two statuses. */
  lemma PillAgainstBadge(st: TaskStatus)
    ensures StatusPill(st) == BadgeLabel(StatusKey(st)) <==> st != InProgress
  {
  }
}
