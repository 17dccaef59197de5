/** The employee "New Task" form: its fields, the required-field check on
    submit, and the reset after a successful submission. */
module NewTask {
  import opened Wrappers
  import opened Types

  /** The form's fields; an unselected customer type is `None` (the form's
      empty string). */
  datatype FormData = FormData(
    customerName: string,
    phone: string,
    email: string,
    service: string,
    description: string,
    customerType: Option<CustomerType>)

  /** The form as first shown, and as left after a successful submission. */
  const EmptyForm: FormData := FormData("", "", "", "", "", None)

  /** What a submission reports. */
  datatype Outcome = MissingRequiredFields | TaskCreated

  /** `handleSubmit`: rejected, with the form untouched, when the customer
      name, phone, customer type or service is empty; otherwise accepted and
      the form reset. Email and description are optional, and the check is
      for emptiness only. */
  function Submit(form: FormData): (r: (Outcome, FormData))
    ensures r.0 == MissingRequiredFields <==>
      form.customerName == "" || form.phone == "" || form.customerType.None? || form.service == ""
    ensures r.0 == MissingRequiredFields ==> r.1 == form
    ensures r.0 == TaskCreated ==> r.1 == EmptyForm
  {
    if form.customerName == [] || form.phone == [] || form.customerType == None || form.service == [] then
      (MissingRequiredFields, form)
    else
      (TaskCreated, FormData("", "", "", "", "", None))
  }

  /** Email and description never decide the outcome. */
  lemma OptionalFieldsIgnored(form: FormData, email: string, description: string)
    ensures Submit(form.(email := email, description := description)).0 == Submit(form).0
  {
  }

  /** A non-empty string of spaces, tabs and line breaks only. */
  predicate Blank(s: string)
  {
    |s| > 0 && forall i :: 0 <= i < |s| ==> s[i] in {' ', '\t', '\n', '\r'}
  }

  /** Whitespace counts as filled in: the check is for emptiness, not
      trimmed emptiness, so a form whose required text fields are all blank is
      accepted once a customer type is picked, whatever its optional fields. */
  lemma WhitespaceAccepted(form: FormData)
    requires form.customerType.Some?
    requires Blank(form.customerName) && Blank(form.phone) && Blank(form.service)
    ensures Submit(form).0 == TaskCreated
  {
  }

  /** After a successful submission the form is empty, so submitting again
      straight away is rejected. */
  lemma ResubmitRejected(form: FormData)
    requires Submit(form).0 == TaskCreated
    ensures Submit(Submit(form).1) == (MissingRequiredFields, EmptyForm)
  {
  }

  /** The service select's options. */
  const ServiceOptions: seq<string> :=
    ["Job Assistance", "Education Support", "Documentation", "Booking Service", "Consultation", "Other"]

  /** The customer-type select's options: the label table's entries, in its
      key order. */
  function TypeOptions(): (r: seq<(CustomerType, string)>)
    ensures |r| == |CustomerTypes|
    ensures forall i :: 0 <= i < |r| ==> r[i].0 == CustomerTypes[i] && r[i].1 == CustomerTypeLabel(r[i].0)
    ensures forall t :: (t, CustomerTypeLabel(t)) in r
  {
    var r := seq(|CustomerTypes|, i requires 0 <= i < |CustomerTypes| => (CustomerTypes[i], CustomerTypeLabel(CustomerTypes[i])));
    EnumerationsClosed();
    assert forall t :: (t, CustomerTypeLabel(t)) in r by {
      forall t ensures (t, CustomerTypeLabel(t)) in r {
        assert t in CustomerTypes;
        var i :| 0 <= i < |CustomerTypes| && CustomerTypes[i] == t;
        assert r[i] == (t, CustomerTypeLabel(t));
      }
    }
    r
  }

  /** Six service options, pairwise distinct. */
  lemma ServiceOptionsDistinct()
    ensures |ServiceOptions| == 6
    ensures forall i, j :: 0 <= i < j < |ServiceOptions| ==> ServiceOptions[i] != ServiceOptions[j]
  {
  }
}
