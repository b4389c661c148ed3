/** The lead form dialog: its record of field values, the update made on
    each keystroke, its initialisation from a lead or from defaults, and the
    submit transitions. */
module LeadForm {
  import opened Common

  /** A lead as the client holds it (timestamps are the strings the server
      sent). The status is typed as one of the board's columns but is
      whatever the server stored. */
  datatype Lead = Lead(
    id: string,
    name: string,
    companyName: Option<string>,
    email: Option<string>,
    phone: Option<string>,
    status: string,
    lastContactedAt: Option<string>,
    source: Option<string>,
    notes: Option<string>,
    createdAt: string)

  /** The form's record. Every field may become null: a change event with
      an empty value stores null, whichever field it names. */
  datatype LeadFormData = LeadFormData(
    name: Option<string>,
    companyName: Option<string>,
    email: Option<string>,
    phone: Option<string>,
    status: Option<string>,
    source: Option<string>,
    notes: Option<string>,
    lastContactedAt: Option<string>)

  /** The fields the form has inputs for, by their `name` attribute. The
      record's `lastContactedAt` has no input: only the lead it was filled
      from sets it. */
  datatype FormField = Name | CompanyName | Email | Phone | Status | Source | Notes

  function Get(d: LeadFormData, f: FormField): Option<string>
  {
    match f
    case Name => d.name
    case CompanyName => d.companyName
    case Email => d.email
    case Phone => d.phone
    case Status => d.status
    case Source => d.source
    case Notes => d.notes
  }

  /** Two records that agree on every field are the same record. */
  lemma FormExtensionality(a: LeadFormData, b: LeadFormData)
    requires forall f :: Get(a, f) == Get(b, f)
    requires a.lastContactedAt == b.lastContactedAt
    ensures a == b
  {
    assert Get(a, Name) == Get(b, Name) && Get(a, CompanyName) == Get(b, CompanyName);
    assert Get(a, Email) == Get(b, Email) && Get(a, Phone) == Get(b, Phone);
    assert Get(a, Status) == Get(b, Status) && Get(a, Source) == Get(b, Source);
    assert Get(a, Notes) == Get(b, Notes);
  }

  /** The value a change event stores: null for the empty string. */
  function Stored(value: string): Option<string>
  {
    if value == "" then None else Some(value)
  }

  /** The record after a change event on one field: that field holds the
      new value (null when empty), every other field is as it was. */
  function Changed(d: LeadFormData, f: FormField, value: string): (r: LeadFormData)
    ensures Get(r, f) == Stored(value)
    ensures forall g | g != f :: Get(r, g) == Get(d, g)
    ensures r.lastContactedAt == d.lastContactedAt
  {
    match f
    case Name => d.(name := Stored(value))
    case CompanyName => d.(companyName := Stored(value))
    case Email => d.(email := Stored(value))
    case Phone => d.(phone := Stored(value))
    case Status => d.(status := Stored(value))
    case Source => d.(source := Stored(value))
    case Notes => d.(notes := Stored(value))
  }

  /** A second change of the same field overrides the first, so repeating a
      change is idempotent. */
  lemma ChangedOverrides(d: LeadFormData, f: FormField, v: string, w: string)
    ensures Changed(Changed(d, f, v), f, w) == Changed(d, f, w)
  {
    FormExtensionality(Changed(Changed(d, f, v), f, w), Changed(d, f, w));
  }

  /** Changes of different fields commute. */
  lemma ChangedCommutes(d: LeadFormData, f: FormField, v: string, g: FormField, w: string)
    requires f != g
    ensures Changed(Changed(d, f, v), g, w) == Changed(Changed(d, g, w), f, v)
  {
    FormExtensionality(Changed(Changed(d, f, v), g, w), Changed(Changed(d, g, w), f, v));
  }

  /** No field holds the empty string. */
  predicate NoEmptyValues(d: LeadFormData)
  {
    forall f :: Get(d, f) != Some("")
  }

  /** Change events never store the empty string. */
  lemma ChangedKeepsNoEmptyValues(d: LeadFormData, f: FormField, value: string)
    requires NoEmptyValues(d)
    ensures NoEmptyValues(Changed(d, f, value))
  {
  }

  /** The record for editing a lead: exactly its eight editable fields. */
  function FromLead(l: Lead): (r: LeadFormData)
    ensures Get(r, Name) == Some(l.name) && Get(r, Status) == Some(l.status)
    ensures Get(r, CompanyName) == l.companyName && Get(r, Email) == l.email && Get(r, Phone) == l.phone
    ensures Get(r, Source) == l.source && Get(r, Notes) == l.notes && r.lastContactedAt == l.lastContactedAt
  {
    LeadFormData(Some(l.name), l.companyName, l.email, l.phone, Some(l.status), l.source, l.notes, l.lastContactedAt)
  }

  /** The lead a record describes, on top of the lead it was filled from:
      the record's name and status when it holds them, its optional fields
      as they stand, and the lead's own id and creation time. */
  function WithForm(l: Lead, d: LeadFormData): Lead
  {
    l.(name := if d.name.Some? then d.name.value else l.name,
       companyName := d.companyName, email := d.email, phone := d.phone,
       status := if d.status.Some? then d.status.value else l.status,
       lastContactedAt := d.lastContactedAt, source := d.source, notes := d.notes)
  }

  /** Filling the form from a lead loses nothing: the unedited record
      describes the lead itself, and a record holding a name and a status is
      recovered in full from the lead it describes. */
  lemma FromLeadRoundTrip(l: Lead, d: LeadFormData)
    ensures WithForm(l, FromLead(l)) == l
    ensures d.name.Some? && d.status.Some? ==> FromLead(WithForm(l, d)) == d
  {
  }

  /** Editing one field of a lead's record describes the lead with that one
      field changed: every other field, and the id and creation time, stay
      the lead's. */
  lemma EditChangesOneField(l: Lead, f: FormField, value: string)
    requires f != Name && f != Status
    ensures var e := WithForm(l, Changed(FromLead(l), f, value));
      && FromLead(e) == Changed(FromLead(l), f, value)
      && e.id == l.id && e.createdAt == l.createdAt
  {
  }

  /** The record for a new lead: an empty name, the first status offered
      (undefined when none is), every other field null. */
  function Blank(statuses: seq<string>): (r: LeadFormData)
    ensures Get(r, Name) == Some("")
    ensures Get(r, Status) == (if |statuses| > 0 then Some(statuses[0]) else None)
    ensures forall f | f != Name && f != Status :: Get(r, f).None?
  {
    LeadFormData(Some(""), None, None, None, if |statuses| > 0 then Some(statuses[0]) else None, None, None, None)
  }

  /** How the parent's submit handler settled: it resolved, or it threw
      (with the message of an `Error`, or a value without one). */
  datatype SubmitOutcome = Resolved | Rejected(message: Option<string>)

  /** The message shown when a submit fails. */
  function SubmitError(outcome: SubmitOutcome): (e: Option<string>)
    requires outcome.Rejected?
    ensures e.Some?
    ensures outcome.message.Some? ==> e == outcome.message
    ensures outcome.message.None? ==> e == Some("An error occurred while saving the lead")
  {
    Some(if outcome.message.Some? then outcome.message.value else "An error occurred while saving the lead")
  }

  /** The dialog's state. */
  class LeadFormModal {
    var statuses: seq<string>
    var formData: LeadFormData
    var isSubmitting: bool
    var error: Option<string>

    /** The dialog as first rendered: the blank record. */
    constructor (statuses: seq<string>)
      ensures this.statuses == statuses && formData == Blank(statuses)
      ensures !isSubmitting && error.None?
    {
      this.statuses := statuses;
      formData := Blank(statuses);
      isSubmitting := false;
      error := None;
    }

    /** The effect run when the lead to edit (or the offered statuses)
        change: fill the record from the lead, or reset it to the blank
        record, which is the initial one. */
    method SyncWithLead(lead: Option<Lead>)
      modifies this`formData
      ensures formData == if lead.Some? then FromLead(lead.value) else Blank(statuses)
    {
      if lead.Some? {
        formData := FromLead(lead.value);
      } else {
        formData := Blank(statuses);
      }
    }

    /** A change event on the input named `field`. */
    method HandleChange(field: FormField, value: string)
      modifies this`formData
      ensures formData == Changed(old(formData), field, value)
    {
      formData := Changed(formData, field, value);
    }

    /** A submit: the record is handed to the parent's handler; when that
        resolves the dialog asks to be closed, when it throws the error is
        shown and the dialog stays open; either way submitting ends. */
    method HandleSubmit(outcome: SubmitOutcome) returns (submitted: LeadFormData, callsOnClose: bool)
      modifies this`isSubmitting, this`error
      ensures submitted == formData && formData == old(formData)
      ensures callsOnClose <==> outcome.Resolved?
      ensures error == if outcome.Resolved? then None else SubmitError(outcome)
      ensures !isSubmitting
    {
      error := None;
      isSubmitting := true;
      submitted := formData;
      callsOnClose := false;
      match outcome {
        case Resolved =>
          callsOnClose := true;
        case Rejected(_) =>
          error := SubmitError(outcome);
      }
      isSubmitting := false;
    }
  }
}
