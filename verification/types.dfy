/** The dashboard's records: customers and tasks, the closed customer-type and
    task-status enumerations with their wire spellings, and the display-label
    table for customer types. */
module Types {
  import opened Wrappers

  /** The four customer categories. */
  datatype CustomerType = JobSeeker | Student | GovScheme | Booking

  /** A task's progress; tri-state. */
  datatype TaskStatus = Pending | InProgress | Completed

  /** An instant, as milliseconds since the epoch. */
  type Timestamp = int

  /** A customer. `email` is the only optional field. */
  datatype Customer = Customer(
    id: string,
    name: string,
    phone: string,
    email: Option<string>,
    customerType: CustomerType,
    createdAt: Timestamp)

  /** A task, carrying denormalised copies of its customer's and its
      employee's names. */
  datatype Task = Task(
    id: string,
    customerId: string,
    customerName: string,
    description: string,
    service: string,
    employeeId: string,
    employeeName: string,
    customerType: CustomerType,
    status: TaskStatus,
    createdAt: Timestamp)

  /** Every customer type, in declaration order (also the key order of the
      label table). */
  const CustomerTypes: seq<CustomerType> := [JobSeeker, Student, GovScheme, Booking]

  /** Every task status, in declaration order. */
  const TaskStatuses: seq<TaskStatus> := [Pending, InProgress, Completed]

  /** The string a customer type is stored and compared as. */
  function CustomerTypeKey(t: CustomerType): string
  {
    match t
    case JobSeeker => "job_seeker"
    case Student => "student"
    case GovScheme => "gov_scheme"
    case Booking => "booking"
  }

  /** The string a task status is stored and compared as. */
  function StatusKey(s: TaskStatus): string
  {
    match s
    case Pending => "pending"
    case InProgress => "in_progress"
    case Completed => "completed"
  }

  /** Reads a customer-type key back; the four keys are the only strings that
      name a customer type. */
  function ParseCustomerType(s: string): (r: Option<CustomerType>)
    ensures r.Some? ==> CustomerTypeKey(r.value) == s
    ensures forall t :: CustomerTypeKey(t) == s ==> r == Some(t)
  {
    if s == "job_seeker" then Some(JobSeeker)
    else if s == "student" then Some(Student)
    else if s == "gov_scheme" then Some(GovScheme)
    else if s == "booking" then Some(Booking)
    else None
  }

  /** Reads a status key back; the three keys are the only strings that name a
      status. */
  function ParseStatus(s: string): (r: Option<TaskStatus>)
    ensures r.Some? ==> StatusKey(r.value) == s
    ensures forall t :: StatusKey(t) == s ==> r == Some(t)
  {
    if s == "pending" then Some(Pending)
    else if s == "in_progress" then Some(InProgress)
    else if s == "completed" then Some(Completed)
    else None
  }

  /** The `customerTypeLabels` table, total over the enumeration. */
  function CustomerTypeLabel(t: CustomerType): string
  {
    match t
    case JobSeeker => "Job Seeker"
    case Student => "Student"
    case GovScheme => "Gov Scheme"
    case Booking => "Booking"
  }

  /** The enumerations are closed: the constant lists name every value exactly
      once. */
  lemma EnumerationsClosed()
    ensures |CustomerTypes| == 4 && forall t: CustomerType :: t in CustomerTypes
    ensures forall i, j :: 0 <= i < j < |CustomerTypes| ==> CustomerTypes[i] != CustomerTypes[j]
    ensures |TaskStatuses| == 3 && forall s: TaskStatus :: s in TaskStatuses
    ensures forall i, j :: 0 <= i < j < |TaskStatuses| ==> TaskStatuses[i] != TaskStatuses[j]
  {
    forall t: CustomerType ensures t in CustomerTypes {
      match t
      case JobSeeker => assert CustomerTypes[0] == t;
      case Student => assert CustomerTypes[1] == t;
      case GovScheme => assert CustomerTypes[2] == t;
      case Booking => assert CustomerTypes[3] == t;
    }
    forall s: TaskStatus ensures s in TaskStatuses {
      match s
      case Pending => assert TaskStatuses[0] == s;
      case InProgress => assert TaskStatuses[1] == s;
      case Completed => assert TaskStatuses[2] == s;
    }
  }

  /** Distinct customer types have distinct labels, so a label identifies its
      type. */
  lemma LabelsInjective(a: CustomerType, b: CustomerType)
    ensures CustomerTypeLabel(a) == CustomerTypeLabel(b) ==> a == b
  {
  }

  /** Neither a label nor a wire key contains the CSV delimiters. */
  lemma LabelsAreCsvSafe(t: CustomerType, s: TaskStatus)
    ensures ',' !in CustomerTypeLabel(t) && '\n' !in CustomerTypeLabel(t)
    ensures ',' !in StatusKey(s) && '\n' !in StatusKey(s)
  {
  }
}
