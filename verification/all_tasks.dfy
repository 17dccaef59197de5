/** The admin "All Tasks" page: the status, search and date filters over every
    task, the CSV export of the filtered list, and "Clear All". */
module AllTasks {
  import opened Wrappers
  import opened Types
  import opened Text
  import opened Seqs
  import opened Query
  import opened Csv

  /** The page's filter state. */
  datatype TaskFilters = TaskFilters(status: StatusChoice, search: string, dates: DateRange)

  /** The filter state the page opens with. */
  const InitialFilters: TaskFilters := TaskFilters(AnyStatus, "", NoDates)

  /** A task passes when the status, the search and the date test all hold. */
  predicate Keep(f: TaskFilters, t: Task)
  {
    StatusMatches(f.status, t) && SearchMatches(f.search, t) && InRange(f.dates, t.createdAt)
  }

  /** `filteredTasks`: exactly the tasks passing every active constraint, in
      their original order, each as often as in the input. */
  function FilteredTasks(tasks: seq<Task>, f: TaskFilters): (r: seq<Task>)
    ensures IsSubseq(r, tasks)
    ensures forall t :: t in r <==>
      t in tasks && StatusMatches(f.status, t) && SearchMatches(f.search, t) && InRange(f.dates, t.createdAt)
  {
    Filter(tasks, (t: Task) => Keep(f, t))
  }

  /** Each passing task is kept as often as it occurs; no failing task is. */
  lemma FilteredTasksMultiplicity(tasks: seq<Task>, f: TaskFilters, t: Task)
    ensures multiset(FilteredTasks(tasks, f))[t] == if Keep(f, t) then multiset(tasks)[t] else 0
  {
    FilterMultiplicity(tasks, (t: Task) => Keep(f, t), t);
  }

  /** With every constraint inactive the list is shown unchanged. */
  lemma NoConstraintIsIdentity(tasks: seq<Task>, f: TaskFilters)
    requires f.status == AnyStatus && f.search == "" && f.dates == NoDates
    ensures FilteredTasks(tasks, f) == tasks
  {
    FilterAllPass(tasks, (t: Task) => Keep(f, t));
  }

  /** "Clear All": the status back to all, the search emptied, both dates
      unset; that is the state the page opens with, and it shows every task. */
  function ClearFilters(f: TaskFilters): (r: TaskFilters)
    ensures r == InitialFilters
    ensures forall tasks :: FilteredTasks(tasks, r) == tasks
  {
    var r := TaskFilters(AnyStatus, "", NoDates);
    assert forall tasks :: FilteredTasks(tasks, r) == tasks by {
      forall tasks: seq<Task> ensures FilteredTasks(tasks, r) == tasks {
        NoConstraintIsIdentity(tasks, r);
      }
    }
    r
  }

  /** The "Clear All" button is shown only while a date or a search is set; a
      status choice alone does not show it. */
  predicate ClearShown(f: TaskFilters)
  {
    f.dates.from.Some? || f.dates.to.Some? || f.search != ""
  }

  /** While the button is hidden at most the status constraint is active: the
      list is the status filter alone. */
  lemma HiddenClearMeansStatusOnly(tasks: seq<Task>, f: TaskFilters)
    requires !ClearShown(f)
    ensures FilteredTasks(tasks, f) == Filter(tasks, (t: Task) => StatusMatches(f.status, t))
  {
    FilterExtensional(tasks, (t: Task) => Keep(f, t), (t: Task) => StatusMatches(f.status, t));
  }

  /** Filtering an already filtered list keeps the tasks that pass both sets
      of filters. */
  lemma FiltersCompose(tasks: seq<Task>, f1: TaskFilters, f2: TaskFilters)
    ensures FilteredTasks(FilteredTasks(tasks, f1), f2) == Filter(tasks, (t: Task) => Keep(f1, t) && Keep(f2, t))
  {
    FilterCompose(tasks, (t: Task) => Keep(f1, t), (t: Task) => Keep(f2, t), (t: Task) => Keep(f1, t) && Keep(f2, t));
  }

  /** Applying the three constraints one after the other, each alone, gives
      the combined filter: they are simply AND'd. */
  lemma ConstraintsAreConjoined(tasks: seq<Task>, f: TaskFilters)
    ensures FilteredTasks(tasks, f) ==
      FilteredTasks(FilteredTasks(FilteredTasks(tasks,
        TaskFilters(f.status, "", NoDates)),
        TaskFilters(AnyStatus, f.search, NoDates)),
        TaskFilters(AnyStatus, "", f.dates))
  {
    var s := TaskFilters(f.status, "", NoDates);
    var q := TaskFilters(AnyStatus, f.search, NoDates);
    var d := TaskFilters(AnyStatus, "", f.dates);
    FiltersCompose(tasks, s, q);
    var sq := (t: Task) => Keep(s, t) && Keep(q, t);
    FilterCompose(tasks, sq, (t: Task) => Keep(d, t), (t: Task) => Keep(f, t));
  }

  /** The export's column headers. */
  const TaskHeader: seq<string> :=
    ["Customer Name", "Description", "Service", "Employee", "Type of Customer", "Status", "Date"]

  lemma TaskHeaderIsCsvSafe()
    ensures FieldsAvoid(TaskHeader, '\n') && FieldsAvoid(TaskHeader, ',')
  {
  }

  /** One exported task: the type through the label table, the status as its
      raw key, the creation date through the date formatter. */
  function TaskRow(t: Task, formatDate: Timestamp -> string): seq<string>
  {
    [t.customerName, t.description, t.service, t.employeeName,
     CustomerTypeLabel(t.customerType), StatusKey(t.status), formatDate(t.createdAt)]
  }

  /** The text of the downloaded file. */
  function TaskExport(tasks: seq<Task>, f: TaskFilters, formatDate: Timestamp -> string): string
  {
    Document(TaskHeader, Map(FilteredTasks(tasks, f), (t: Task) => TaskRow(t, formatDate)))
  }

  /** The free-text fields of a task avoid `c`. */
  predicate TextAvoids(t: Task, c: char)
  {
    c !in t.customerName && c !in t.description && c !in t.service && c !in t.employeeName
  }

  lemma RowAvoids(t: Task, formatDate: Timestamp -> string, c: char)
    requires c == ',' || c == '\n'
    requires TextAvoids(t, c) && c !in formatDate(t.createdAt)
    ensures FieldsAvoid(TaskRow(t, formatDate), c)
  {
    LabelsAreCsvSafe(t.customerType, t.status);
  }

  /** When no exported task has a newline in a text field or in its formatted
      date, the file has one line more than there are filtered tasks: the
      header line first, then one line per filtered task, in order. */
  lemma TaskExportLines(tasks: seq<Task>, f: TaskFilters, formatDate: Timestamp -> string)
    requires forall t :: t in FilteredTasks(tasks, f) ==> TextAvoids(t, '\n') && '\n' !in formatDate(t.createdAt)
    ensures var lines := Split(TaskExport(tasks, f, formatDate), '\n');
      && |lines| == |FilteredTasks(tasks, f)| + 1
      && lines[0] == Line(TaskHeader)
      && forall j :: 0 <= j < |FilteredTasks(tasks, f)| ==>
           lines[j + 1] == Line(TaskRow(FilteredTasks(tasks, f)[j], formatDate))
  {
    var kept := FilteredTasks(tasks, f);
    var row := (t: Task) => TaskRow(t, formatDate);
    forall j | 0 <= j < |kept| ensures FieldsAvoid(row(kept[j]), '\n') {
      assert kept[j] in kept;
      RowAvoids(kept[j], formatDate, '\n');
    }
    TaskHeaderIsCsvSafe();
    RecordLines(TaskHeader, kept, row);
  }

  /** When no field of the task contains a comma, its line reads back as
      seven fields in header order; the status and the customer type can be
      recovered from their columns. */
  lemma TaskLineFields(t: Task, formatDate: Timestamp -> string)
    requires TextAvoids(t, ',') && ',' !in formatDate(t.createdAt)
    ensures var fields := Split(Line(TaskRow(t, formatDate)), ',');
      && |fields| == |TaskHeader| == 7
      && fields[0] == t.customerName && fields[1] == t.description
      && fields[2] == t.service && fields[3] == t.employeeName
      && ParseStatus(fields[5]) == Some(t.status)
      && (forall ct :: CustomerTypeLabel(ct) == fields[4] <==> ct == t.customerType)
      && fields[6] == formatDate(t.createdAt)
  {
    RowAvoids(t, formatDate, ',');
    LineFields(TaskRow(t, formatDate));
    forall ct ensures CustomerTypeLabel(ct) == CustomerTypeLabel(t.customerType) <==> ct == t.customerType {
      LabelsInjective(ct, t.customerType);
    }
  }

  /** Nothing is escaped: a comma inside any text field makes the task's line
      read back as more than seven fields. */
  lemma TaskLineOverflow(t: Task, formatDate: Timestamp -> string)
    requires !TextAvoids(t, ',')
    ensures |Split(Line(TaskRow(t, formatDate)), ',')| > 7
  {
    var row := TaskRow(t, formatDate);
    if ',' in t.customerName {
      LineOverflow(row, 0);
    } else if ',' in t.description {
      LineOverflow(row, 1);
    } else if ',' in t.service {
      LineOverflow(row, 2);
    } else {
      LineOverflow(row, 3);
    }
  }
}
