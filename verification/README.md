# Dashboard query and export core, in Dafny

This project models the logic under the admin and employee pages of the
customer/task dashboard. These pages are a set of pure, in-memory steps over `Task` and
`Customer` records:

- the record types and the customer-type label table (`src/types/index.ts`);
- the composable filters: status or customer-type equality, where "all" means
  no constraint; case-insensitive search across customer name, employee name
  and service; and the three-way date-range test;
- per-employee scoping, the status counts on both dashboards and the
  five-task "recent" prefix;
- the CSV export of both list pages: a header line and one line per filtered
  record, fields joined by `,` and lines by `\n`, with no escaping;
- "Clear All" on All Tasks and "Clear" on Customers, with the condition under
  which each button is shown, "Notify All", the status badge and pill
  labels, the greeting name;
- the New Task form's required-field check and its reset.

Records are immutable datatypes and every operation is a pure function over
`seq`. Timestamps are integers (milliseconds since the epoch). Strings are
`seq<char>`, and `toLowerCase`/`toUpperCase` are ASCII case mapping. A
customer's `email` is `Option<string>`, its only optional field. The
`'all' | value` filter states are datatypes (`AnyStatus | OnlyStatus(s)`,
`AnyType | OnlyType(t)`), because the buttons and selects only ever produce
those values. The New Task form's `'' | CustomerType` field is an
`Option<CustomerType>`.

Modules follow the source: `Types` (records, keys, labels), `Query` (the
predicates the pages share), `Csv` (the export text), and one module per page:
`AllTasks`, `Customers`, `MyTasks`, `NewTask`, `AdminDashboard` and
`EmployeeDashboard`. `Seqs` and `Text` hold the JavaScript array and string
operations they use: `filter`, `map`, `slice`, `includes`, `join`, `split`
and `replace`.

The date-range test is written out twice in the source, at AllTasks.tsx:50-57
and Customers.tsx:44-51. Here it is defined once (`Query.InRange`), and both
pages' filters use it. The status badge (identical in AllTasks.tsx and
MyTasks.tsx) and the status pill (identical on both dashboards) are likewise
defined once. `Query.PillAgainstBadge` records that the two spell the
in-progress status differently ("In progress" against "In Progress").

## Model

| member | source | states |
|---|---|---|
| Types.ParseCustomerType | src/types/index.ts:1 | the four keys job_seeker, student, gov_scheme, booking are exactly the strings naming a customer type, and each reads back to its type |
| Types.ParseStatus | src/types/index.ts:21 | pending, in_progress, completed are exactly the strings naming a status, and each reads back to its status |
| Types.EnumerationsClosed | src/types/index.ts:1-23 | customer type has exactly four values and task status exactly three, each listed once |
| Types.LabelsInjective | src/types/index.ts:43-48 | the label table is total and distinct types have distinct labels |
| Seqs.Filter | src/pages/admin/AllTasks.tsx:42 | `filter` keeps exactly the elements meeting the predicate, as an order-preserving subsequence, never longer than the input |
| Seqs.FilterMultiplicity | src/pages/admin/AllTasks.tsx:42 | every element meeting the predicate is kept as often as it occurs in the input, every other element not at all |
| Seqs.SubseqTransitive | src/pages/employee/MyTasks.tsx:30-34 | a subsequence of a subsequence is a subsequence: a list filtered from a filtered list is drawn in order from the original |
| Text.Lower | src/pages/admin/AllTasks.tsx:46-48 | lowering leaves no upper-case letter and changes nothing else, position by position |
| Text.Includes | src/pages/admin/AllTasks.tsx:46-48 | `includes` holds exactly when the needle occurs at some position; the empty needle occurs everywhere |
| Text.SplitJoin | src/pages/admin/AllTasks.tsx:74 | splitting a join on its separator gives back the parts when no part contains the separator |
| Text.ReplaceFirst | src/pages/admin/Dashboard.tsx:136 | `replace('_', ' ')` changes the first underscore, and only it, into a space |
| Query.InRange | src/pages/admin/AllTasks.tsx:50-57 | the three-way date test equals checking each set bound inclusively |
| Query.InRangeCases | src/pages/admin/Customers.tsx:44-51 | both bounds: from <= at <= to; only from: at >= from; only to: at <= to; none: always true |
| Query.InRangeMonotone | src/pages/admin/AllTasks.tsx:50-57 | loosening or dropping a bound never excludes a record the tighter range kept |
| Query.StatusFilterValue | src/pages/admin/AllTasks.tsx:37 | the stored filter string is "all" exactly for the "all" choice, and otherwise reads back as the chosen status |
| Query.StatusMatches | src/pages/admin/AllTasks.tsx:43 | the page's string test (filter is `'all'`, or the task's status key equals the filter) holds exactly when the choice is "all" or the task has the chosen status |
| Query.TypeFilterValue | src/pages/admin/Customers.tsx:30 | the stored filter string is "all" exactly for the "all" choice, and otherwise reads back as the chosen customer type |
| Query.TypeMatches | src/pages/admin/Customers.tsx:42 | the page's string test (filter is `'all'`, or the customer's type key equals the filter) holds exactly when the choice is "all" or the customer has the chosen type |
| Query.SearchMatches | src/pages/admin/AllTasks.tsx:45-48 | a task matches exactly when its lowered customer name, employee name or service contains the lowered query |
| Query.SearchIgnoresCase | src/pages/admin/AllTasks.tsx:46-48 | queries equal up to letter case select the same tasks |
| Query.SearchIgnoresDescription | src/pages/admin/AllTasks.tsx:45-48 | the description is never searched |
| Query.CountStatus | src/pages/admin/Dashboard.tsx:10-11 | a status count never exceeds the number of tasks |
| Query.StatusesCounted | src/pages/admin/Dashboard.tsx:10-11 | the length of the status filter equals how many times that status occurs among the tasks' statuses |
| Query.StatusPartition | src/pages/employee/Dashboard.tsx:8-10 | pending, in-progress and completed counts add up to the number of tasks |
| Query.OwnTasks | src/pages/employee/Dashboard.tsx:7 | scoping keeps exactly the tasks of the given employee, in order, as a subsequence |
| Query.OwnTasksMultiplicity | src/pages/employee/Dashboard.tsx:7 | each task of the given employee is kept as often as it occurs; no other task is kept |
| Query.Recent | src/pages/employee/Dashboard.tsx:43 | `slice(0, 5)` is the prefix of length min(5, n) |
| Query.BadgeLabel | src/pages/employee/MyTasks.tsx:36-47 | completed, in_progress, pending show "Completed", "In Progress", "Pending"; any other string shows as given |
| Query.StatusPill | src/pages/admin/Dashboard.tsx:136 | the pill reads "Pending", "In progress", "Completed" |
| Query.PillAgainstBadge | src/pages/employee/Dashboard.tsx:101 | pill and badge agree except on in-progress tasks |
| Csv.DocumentLines | src/pages/admin/AllTasks.tsx:74 | with no newline in a field, the text splits into the header line and one line per row, in order |
| Csv.LineFields | src/pages/admin/Customers.tsx:73 | with no comma in a field, a line splits back into its fields |
| Csv.LineOverflow | src/pages/admin/Customers.tsx:73 | a field containing a comma makes its line split into more fields than it was written with |
| AllTasks.FilteredTasks | src/pages/admin/AllTasks.tsx:42-60 | the result is the order-preserving subsequence of the tasks meeting status, search and date tests together |
| AllTasks.FilteredTasksMultiplicity | src/pages/admin/AllTasks.tsx:42-60 | a task passing all three tests appears in the list as often as in the input; a failing one not at all |
| AllTasks.NoConstraintIsIdentity | src/pages/admin/AllTasks.tsx:37-57 | status "all", empty search and no dates show the list unchanged |
| AllTasks.ClearFilters | src/pages/admin/AllTasks.tsx:85-90 | "Clear All" restores the opening filter state, under which every task is shown |
| AllTasks.HiddenClearMeansStatusOnly | src/pages/admin/AllTasks.tsx:228-232 | the button is shown only while a date or a search is set; while it is hidden the list is the status filter alone |
| AllTasks.FiltersCompose | src/pages/admin/AllTasks.tsx:42-60 | filtering a filtered list equals one filter by both criteria |
| AllTasks.ConstraintsAreConjoined | src/pages/admin/AllTasks.tsx:59 | applying the status, search and date constraints one after another equals the combined filter |
| AllTasks.TaskExportLines | src/pages/admin/AllTasks.tsx:62-74 | the export text (`TaskExport`, rows built by `TaskRow`) has filtered-count + 1 lines when no exported task has a newline in a field: the header, then one line per filtered task in order |
| AllTasks.TaskLineFields | src/pages/admin/AllTasks.tsx:63-72 | a comma-free task line reads back as seven fields in header order; status is its raw key and the type its label |
| AllTasks.TaskLineOverflow | src/pages/admin/AllTasks.tsx:74 | a comma in a task's name, description, service or employee splits its line into more than seven fields |
| Customers.TypeOptionsShape | src/pages/admin/Customers.tsx:34-39 | the buttons are all, job seeker, student, gov scheme (no booking); captions match the label table and the list title |
| Customers.FilteredCustomers | src/pages/admin/Customers.tsx:41-54 | the result is the order-preserving subsequence of the customers meeting the type and date tests |
| Customers.FilteredCustomersMultiplicity | src/pages/admin/Customers.tsx:41-54 | a customer passing the type and date tests appears as often as in the input; a failing one not at all |
| Customers.NoConstraintIsIdentity | src/pages/admin/Customers.tsx:30-32 | the opening state (all types, no dates) shows every customer |
| Customers.NotifyAll | src/pages/admin/Customers.tsx:56-59 | one phone number per filtered customer, in order; the announced count is the filtered count |
| Customers.ClearFilters | src/pages/admin/Customers.tsx:84-87 | "Clear" unsets only the dates: the type stays, the list becomes every customer of that type and only grows |
| Customers.HiddenClearChangesNothing | src/pages/admin/Customers.tsx:178-182 | the button is shown only while a date is set; while it is hidden, clearing would change nothing |
| Customers.DatesOnlyNarrow | src/pages/admin/Customers.tsx:44-53 | the date test AND'd onto the type test only removes customers |
| Customers.EmailCell | src/pages/admin/Customers.tsx:67 | a missing email exports as the empty string, a present one as itself |
| Customers.CustomerExportLines | src/pages/admin/Customers.tsx:61-73 | the export text (`CustomerExport`, rows built by `CustomerRow`) has, when no exported customer has a newline in a field, a header line and then one line per filtered customer, in order |
| Customers.CustomerLineFields | src/pages/admin/Customers.tsx:63-71 | a comma-free customer line reads back as six fields in header order: name, phone, the email cell (`c.email || ''`, empty exactly when the email is missing or empty), the type's label, date and time |
| Customers.CustomerLineOverflow | src/pages/admin/Customers.tsx:73 | a comma in the name, phone or email splits the line into more than six fields |
| MyTasks.EmployeeTasks | src/pages/employee/MyTasks.tsx:30 | exactly the tasks with employee id "1", in order |
| MyTasks.EmployeeTasksMultiplicity | src/pages/employee/MyTasks.tsx:30 | each task of employee "1" is listed as often as it occurs; no other task is listed |
| MyTasks.FilteredTasks | src/pages/employee/MyTasks.tsx:32-34 | "all" gives the employee's list; otherwise exactly the employee's tasks in that status; always a subsequence of the employee's list and of all tasks |
| MyTasks.SameAsAllTasksStatusFilter | src/pages/employee/MyTasks.tsx:32-34 | the status select filters like the All Tasks status buttons with no search and no dates |
| NewTask.Submit | src/pages/employee/NewTask.tsx:30-52 | rejected with the form unchanged iff name, phone, type or service is empty; otherwise accepted and the form emptied |
| NewTask.OptionalFieldsIgnored | src/pages/employee/NewTask.tsx:33 | email and description never decide the outcome |
| NewTask.WhitespaceAccepted | src/pages/employee/NewTask.tsx:33 | with a type picked, any form whose name, phone and service are non-empty and made only of spaces, tabs or line breaks is accepted |
| NewTask.ResubmitRejected | src/pages/employee/NewTask.tsx:43-50 | after a success the form is empty, so an immediate resubmission is rejected |
| NewTask.TypeOptions | src/pages/employee/NewTask.tsx:118 | the type select lists the label table's entries in key order, every customer type with its label |
| NewTask.ServiceOptionsDistinct | src/pages/employee/NewTask.tsx:138-143 | six pairwise-distinct service options |
| AdminDashboard.Stats | src/pages/admin/Dashboard.tsx:8-11 | totals are the collection sizes; completed + pending + in-progress = total tasks, so completed + pending <= total |
| AdminDashboard.RecentTasks | src/pages/admin/Dashboard.tsx:118 | the first min(5, n) tasks in original order |
| EmployeeDashboard.Stats | src/pages/employee/Dashboard.tsx:7-10 | the three status counts of the employee's tasks add up to their number, each at most that |
| EmployeeDashboard.RecentTasks | src/pages/employee/Dashboard.tsx:43 | the length-min(5, n) prefix of the employee's tasks |
| Text.Split | src/pages/employee/Dashboard.tsx:51 | `split` on one character gives one more piece than there are separators, no piece holds the separator, and joining the pieces gives back the input |
| Text.FirstWord | src/pages/employee/Dashboard.tsx:51 | `split(' ')[0]` is the prefix before the first space, or the whole text when there is none |
| EmployeeDashboard.GreetingName | src/pages/employee/Dashboard.tsx:51 | the name up to its first space: a prefix with no space, followed by a space or the end |

## Left out

- Rendering, styling, popovers, calendars, toasts, the mobile menu and charts: presentational. The Download and Notify buttons are always shown and need no model; the two Clear buttons' visibility is modelled.
- The download plumbing (`Blob`, object URL, anchor click) and the export file name: only the CSV text is modelled. The name depends on the wall clock.
- Date formatting (`dd/MM/yyyy`, `HH:mm`) comes from date-fns. It is a parameter `Timestamp -> string` of the export functions.
- Query.InRange: when both dates are set and from > to, the source calls date-fns `isWithinInterval`, whose source is not part of this model. date-fns 2 throws on such an interval, and date-fns 3 and later swap the two bounds. The model instead takes the plain inclusive test, so the two-bound case is the closed interval [from, to] and rejects every record when from > to.
- `toLowerCase`/`toUpperCase` on non-ASCII letters: only ASCII case mapping is modelled.
- The simulated one-second delay and the `isSubmitting` flag in NewTask's `handleSubmit`: a submission is one atomic step. The success toast is the `TaskCreated` outcome; no task is stored, as in the source.
- Routing, the login role redirect, navigation highlighting, the static landing page and the "coming soon" edit/delete stubs of the employee roster: thin wrappers or stubs with no logic.
- The mock data: record sequences are parameters of every operation.
- The signed-in employee is the constant id "1" and the greeting takes the user's name as a parameter, as both employee pages hard-code them.
