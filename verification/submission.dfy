/**
  The client side of adding and editing an expense: the empty-field guard of
  `handleSubmit` and `handleUpdateExpense`, the JSON body they post, and how
  the controller then treats that body. `parseInt` and the server's
  `sanitize_text_field` are opaque function parameters.
*/
module Submission {

  import opened Options
  import opened Controller

  /** The add form (`formData`) or the record being edited (`editingExpense`): input values as text. */
  datatype Form = Form(date: string, amount: string, description: string)

  /** The JSON body posted: the date and description as typed, the amount through `parseInt`. */
  datatype Payload = Payload(date: string, amount: int, description: string)

  /**
    The guard: with an empty amount or an empty description nothing is sent;
    otherwise the body carries the form's values.
  */
  function SubmitPayload(f: Form, parseInt: string -> int): (r: Option<Payload>)
    ensures r.None? <==> f.amount == "" || f.description == ""
    ensures r.Some? ==>
      && r.value.date == f.date
      && r.value.amount == parseInt(f.amount)
      && r.value.description == f.description
  {
    if f.amount == "" || f.description == "" then None
    else Some(Payload(f.date, parseInt(f.amount), f.description))
  }

  /** The controller's view of a posted body: every field present, the text sanitised. */
  function Received(b: Payload, sanitize: string -> string): Params {
    Params(Some(sanitize(b.date)), Some(b.amount), Some(sanitize(b.description)))
  }

  /** A form that passes the guard, with a truthy date and a nonzero amount, reaches the insert unchanged. */
  lemma SubmittedFormIsInserted(f: Form, parseInt: string -> int, sanitize: string -> string, currentUserId: int)
    requires f.amount != "" && f.description != ""
    requires TruthyText(Some(sanitize(f.date))) && parseInt(f.amount) != 0
    ensures SubmitPayload(f, parseInt).Some?
    ensures PlanAdd(Received(SubmitPayload(f, parseInt).value, sanitize), currentUserId)
         == Issue(InsertRow(EffectiveUserId(currentUserId), sanitize(f.date), parseInt(f.amount), sanitize(f.description)))
  {
  }

  /** An amount the client lets through (`"0"` is non-empty) but that parses to 0 is refused by the server. */
  lemma ZeroAmountPassesOnlyTheClient(f: Form, parseInt: string -> int, sanitize: string -> string, currentUserId: int)
    requires f.amount != "" && f.description != "" && parseInt(f.amount) == 0
    ensures SubmitPayload(f, parseInt).Some?
    ensures PlanAdd(Received(SubmitPayload(f, parseInt).value, sanitize), currentUserId).Reply?
  {
  }

  /** An edited record that passes the guard, with a nonzero id, truthy date and nonzero amount, reaches the update. */
  lemma EditedRecordIsUpdated(id: int, f: Form, parseInt: string -> int, sanitize: string -> string)
    requires f.amount != "" && f.description != "" && id != 0
    requires TruthyText(Some(sanitize(f.date))) && parseInt(f.amount) != 0
    ensures SubmitPayload(f, parseInt).Some?
    ensures PlanUpdate(id, Received(SubmitPayload(f, parseInt).value, sanitize))
         == Issue(UpdateRow(id, sanitize(f.date), parseInt(f.amount), sanitize(f.description)))
  {
  }
}
