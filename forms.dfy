/** Form fields as the route actions read them, and the field-keyed error
    records they build. */
module Forms {
  import opened Wrappers

  /** `formData.get(name)`: `null` when the field is absent, a string, or
      an uploaded file. */
  datatype FormValue = Absent | Text(text: string) | Upload

  /** The field passes the actions' presence test: it is a string and it
      is not empty. */
  predicate Filled(v: FormValue)
  {
    v.Text? && v.text != ""
  }

  /** The keys of the `errors` records the actions return. */
  datatype Field = Email | Password | Username | FullName | Form {
    /** The key as it appears in the JSON record. */
    function Key(): string
    {
      match this
      case Email => "email"
      case Password => "password"
      case Username => "username"
      case FullName => "fullName"
      case Form => "form"
    }
  }

  /** A field-keyed error record: `Record<string, string>`. */
  type Errors = map<Field, string>

  /** The error record holds `e`'s message under `field` when there is
      one, and no entry for `field` otherwise. */
  predicate EntryIs(errors: Errors, field: Field, e: Option<string>)
  {
    match e
    case Some(message) => field in errors && errors[field] == message
    case None => field !in errors
  }

  /** The record after one field's check: `e`'s message added under
      `field`, or the record unchanged. */
  function WithEntry(errors: Errors, field: Field, e: Option<string>): (r: Errors)
    ensures field !in errors ==> EntryIs(r, field, e)
    ensures r.Keys <= errors.Keys + {field}
    ensures forall k :: k in errors && k != field ==> k in r && r[k] == errors[k]
  {
    if e.Some? then errors[field := e.value] else errors
  }

  /** The message for a field that only has to be present. */
  function RequiredError(v: FormValue, message: string): (r: Option<string>)
    ensures r.None? <==> Filled(v)
    ensures r.Some? ==> r.value == message
  {
    if Filled(v) then None else Some(message)
  }
}
