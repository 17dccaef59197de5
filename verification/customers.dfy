/** The admin "Customers" page: the customer-type buttons and date filters,
    "Notify All", the CSV export, and "Clear" (dates only). */
module Customers {
  import opened Wrappers
  import opened Types
  import opened Text
  import opened Seqs
  import opened Query
  import opened Csv

  /** The page's filter state. */
  datatype CustomerFilters = CustomerFilters(activeType: TypeChoice, dates: DateRange)

  /** The filter state the page opens with. */
  const InitialFilters: CustomerFilters := CustomerFilters(AnyType, NoDates)

  /** The type buttons, in display order, with their captions. Booking has no
      button. */
  const TypeOptions: seq<(TypeChoice, string)> := [
    (AnyType, "All Customers"),
    (OnlyType(JobSeeker), "Job Seeker"),
    (OnlyType(Student), "Student"),
    (OnlyType(GovScheme), "Gov Scheme")
  ]

  /** The list title for the active type. */
  function TypeTitle(c: TypeChoice): string
  {
    match c
    case AnyType => "All Customers"
    case OnlyType(t) => CustomerTypeLabel(t)
  }

  /** The buttons offer "all" and three of the four types, not Booking; each
      typed button's caption is that type's entry in the label table, and every
      caption is the title the list shows once its button is pressed. */
  lemma TypeOptionsShape()
    ensures |TypeOptions| == 4 && TypeOptions[0].0 == AnyType
    ensures forall i :: 1 <= i < |TypeOptions| ==>
      TypeOptions[i].0.OnlyType? && TypeOptions[i].1 == CustomerTypeLabel(TypeOptions[i].0.customerType)
    ensures forall i :: 0 <= i < |TypeOptions| ==> TypeTitle(TypeOptions[i].0) == TypeOptions[i].1
    ensures forall t :: OnlyType(t) in Seqs.Map(TypeOptions, (o: (TypeChoice, string)) => o.0) <==> t != Booking
  {
    var choices := Seqs.Map(TypeOptions, (o: (TypeChoice, string)) => o.0);
    assert choices == [AnyType, OnlyType(JobSeeker), OnlyType(Student), OnlyType(GovScheme)];
  }

  /** A customer passes when the type matches and the date test holds. */
  predicate Keep(f: CustomerFilters, c: Customer)
  {
    TypeMatches(f.activeType, c) && InRange(f.dates, c.createdAt)
  }

  /** `filteredCustomers`: exactly the customers of the active type (any type
      under "all") created within the picked dates, in their original order. */
  function FilteredCustomers(customers: seq<Customer>, f: CustomerFilters): (r: seq<Customer>)
    ensures IsSubseq(r, customers)
    ensures forall c :: c in r <==>
      c in customers && (f.activeType == AnyType || f.activeType == OnlyType(c.customerType)) && InRange(f.dates, c.createdAt)
  {
    Filter(customers, (c: Customer) => Keep(f, c))
  }

  /** Each passing customer is kept as often as they occur; no failing one is. */
  lemma FilteredCustomersMultiplicity(customers: seq<Customer>, f: CustomerFilters, c: Customer)
    ensures multiset(FilteredCustomers(customers, f))[c] == if Keep(f, c) then multiset(customers)[c] else 0
  {
    FilterMultiplicity(customers, (c: Customer) => Keep(f, c), c);
  }

  /** "Notify All": the phone numbers messaged, one per filtered customer, in
      list order; the count announced is their number. */
  function NotifyAll(customers: seq<Customer>, f: CustomerFilters): (phones: seq<string>)
    ensures |phones| == |FilteredCustomers(customers, f)|
    ensures forall i :: 0 <= i < |phones| ==> phones[i] == FilteredCustomers(customers, f)[i].phone
  {
    Seqs.Map(FilteredCustomers(customers, f), (c: Customer) => c.phone)
  }

  /** "Clear" on this page unsets both dates and keeps the active type, so
      the list then holds every customer of that type: everything it held
      before, and possibly more. */
  function ClearFilters(f: CustomerFilters): (r: CustomerFilters)
    ensures r.activeType == f.activeType
    ensures forall cs :: FilteredCustomers(cs, r) == Filter(cs, (c: Customer) => TypeMatches(f.activeType, c))
    ensures forall cs :: IsSubseq(FilteredCustomers(cs, f), FilteredCustomers(cs, r))
  {
    var r := CustomerFilters(f.activeType, DateRange(None, None));
    assert forall cs :: FilteredCustomers(cs, r) == Filter(cs, (c: Customer) => TypeMatches(f.activeType, c)) by {
      forall cs: seq<Customer> ensures FilteredCustomers(cs, r) == Filter(cs, (c: Customer) => TypeMatches(f.activeType, c)) {
        FilterExtensional(cs, (c: Customer) => Keep(r, c), (c: Customer) => TypeMatches(f.activeType, c));
      }
    }
    assert forall cs :: IsSubseq(FilteredCustomers(cs, f), FilteredCustomers(cs, r)) by {
      forall cs: seq<Customer> ensures IsSubseq(FilteredCustomers(cs, f), FilteredCustomers(cs, r)) {
        DatesOnlyNarrow(cs, f);
      }
    }
    r
  }

  /** The "Clear" button is shown only while a date is set. */
  predicate ClearShown(f: CustomerFilters)
  {
    f.dates.from.Some? || f.dates.to.Some?
  }

  /** While the button is hidden there is nothing for it to clear: pressing
      it would leave the filters, and so the list, as they are. */
  lemma HiddenClearChangesNothing(f: CustomerFilters)
    requires !ClearShown(f)
    ensures ClearFilters(f) == f
  {
  }

  /** Dropping the date bounds can only widen the list. */
  lemma DatesOnlyNarrow(cs: seq<Customer>, f: CustomerFilters)
    ensures IsSubseq(FilteredCustomers(cs, f), FilteredCustomers(cs, f.(dates := NoDates)))
  {
    var g := f.(dates := NoDates);
    FilterCompose(cs, (c: Customer) => Keep(g, c), (c: Customer) => Keep(f, c), (c: Customer) => Keep(f, c));
    assert FilteredCustomers(cs, f) == Filter(FilteredCustomers(cs, g), (c: Customer) => Keep(f, c));
  }

  /** With "all" types and no dates the list is every customer. */
  lemma NoConstraintIsIdentity(cs: seq<Customer>)
    ensures FilteredCustomers(cs, InitialFilters) == cs
  {
    FilterAllPass(cs, (c: Customer) => Keep(InitialFilters, c));
  }

  /** The export's column headers. */
  const CustomerHeader: seq<string> := ["Name", "Phone", "Email", "Type", "Created Date", "Created Time"]

  lemma CustomerHeaderIsCsvSafe()
    ensures FieldsAvoid(CustomerHeader, '\n') && FieldsAvoid(CustomerHeader, ',')
  {
  }

  /** `c.email || ''`: a missing (or empty) email exports as the empty
      string, a present one as itself. */
  function EmailCell(email: Option<string>): (r: string)
    ensures email.None? ==> r == ""
    ensures email.Some? ==> r == email.value
  {
    match email
    case None => ""
    case Some(e) => if e == "" then "" else e
  }

  /** One exported customer. */
  function CustomerRow(c: Customer, formatDate: Timestamp -> string, formatTime: Timestamp -> string): seq<string>
  {
    [c.name, c.phone, EmailCell(c.email), CustomerTypeLabel(c.customerType),
     formatDate(c.createdAt), formatTime(c.createdAt)]
  }

  /** The text of the downloaded file. */
  function CustomerExport(customers: seq<Customer>, f: CustomerFilters,
                          formatDate: Timestamp -> string, formatTime: Timestamp -> string): string
  {
    Document(CustomerHeader,
      Seqs.Map(FilteredCustomers(customers, f), (c: Customer) => CustomerRow(c, formatDate, formatTime)))
  }

  /** The free-text fields of a customer avoid `ch`. */
  predicate TextAvoids(c: Customer, ch: char)
  {
    ch !in c.name && ch !in c.phone && ch !in EmailCell(c.email)
  }

  lemma RowAvoids(c: Customer, formatDate: Timestamp -> string, formatTime: Timestamp -> string, ch: char)
    requires ch == ',' || ch == '\n'
    requires TextAvoids(c, ch) && ch !in formatDate(c.createdAt) && ch !in formatTime(c.createdAt)
    ensures FieldsAvoid(CustomerRow(c, formatDate, formatTime), ch)
  {
    LabelsAreCsvSafe(c.customerType, Pending);
  }

  /** When no exported customer has a newline in a text field or in its
      formatted date or time, the file has a header line and then one line
      per filtered customer. */
  lemma CustomerExportLines(customers: seq<Customer>, f: CustomerFilters,
                            formatDate: Timestamp -> string, formatTime: Timestamp -> string)
    requires forall c :: c in FilteredCustomers(customers, f) ==>
      TextAvoids(c, '\n') && '\n' !in formatDate(c.createdAt) && '\n' !in formatTime(c.createdAt)
    ensures var lines := Split(CustomerExport(customers, f, formatDate, formatTime), '\n');
      && |lines| == |FilteredCustomers(customers, f)| + 1
      && lines[0] == Line(CustomerHeader)
      && forall j :: 0 <= j < |FilteredCustomers(customers, f)| ==>
           lines[j + 1] == Line(CustomerRow(FilteredCustomers(customers, f)[j], formatDate, formatTime))
  {
    var kept := FilteredCustomers(customers, f);
    var row := (c: Customer) => CustomerRow(c, formatDate, formatTime);
    forall j | 0 <= j < |kept| ensures FieldsAvoid(row(kept[j]), '\n') {
      assert kept[j] in kept;
      RowAvoids(kept[j], formatDate, formatTime, '\n');
    }
    CustomerHeaderIsCsvSafe();
    RecordLines(CustomerHeader, kept, row);
  }

  /** When no field contains a comma, a customer's line reads back as six
      fields in header order: the email column holds the email, and is empty
      exactly when the email is missing or empty; the type is recoverable from
      its label. */
  lemma CustomerLineFields(c: Customer, formatDate: Timestamp -> string, formatTime: Timestamp -> string)
    requires TextAvoids(c, ',') && ',' !in formatDate(c.createdAt) && ',' !in formatTime(c.createdAt)
    ensures var fields := Split(Line(CustomerRow(c, formatDate, formatTime)), ',');
      && |fields| == |CustomerHeader| == 6
      && fields[0] == c.name && fields[1] == c.phone
      && fields[2] == EmailCell(c.email)
      && (fields[2] == "" <==> c.email.None? || c.email == Some(""))
      && (forall ct :: CustomerTypeLabel(ct) == fields[3] <==> ct == c.customerType)
      && fields[4] == formatDate(c.createdAt) && fields[5] == formatTime(c.createdAt)
  {
    RowAvoids(c, formatDate, formatTime, ',');
    LineFields(CustomerRow(c, formatDate, formatTime));
    forall ct ensures CustomerTypeLabel(ct) == CustomerTypeLabel(c.customerType) <==> ct == c.customerType {
      LabelsInjective(ct, c.customerType);
    }
  }

  /** Nothing is escaped: a comma in the name, phone or email makes the line
      read back as more than six fields. */
  lemma CustomerLineOverflow(c: Customer, formatDate: Timestamp -> string, formatTime: Timestamp -> string)
    requires !TextAvoids(c, ',')
    ensures |Split(Line(CustomerRow(c, formatDate, formatTime)), ',')| > 6
  {
    var row := CustomerRow(c, formatDate, formatTime);
    if ',' in c.name {
      LineOverflow(row, 0);
    } else if ',' in c.phone {
      LineOverflow(row, 1);
    } else {
      LineOverflow(row, 2);
    }
  }
}
