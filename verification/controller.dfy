/**
  The request handling of the expense REST controller (`add`, `delete`,
  `update`): from the already coerced request fields and what the database
  layer returns, to the response. Each handler first decides, without the
  database, whether to answer at once or which single write to issue; the
  write's result then decides the response.
*/
module Controller {

  import opened Options
  import opened Decimal

  /**
    The JSON body fields after `isset` and coercion: text through
    `sanitize_text_field`, the amount through `intval`; `None` where the
    field is absent or null.
  */
  datatype Params = Params(date: Option<string>, amount: Option<int>, description: Option<string>)

  /** What a `$wpdb` write returns: the number of affected rows, or `false`. */
  datatype DbResult = Rows(count: nat) | DbFalse

  /** The single database write a handler issues. */
  datatype DbCall =
    | InsertRow(userId: int, date: string, amount: int, description: string)
    | DeleteRow(id: int)
    | UpdateRow(id: int, date: string, amount: int, description: string)

  /** `rest_ensure_response` with `success => true`, or a `WP_Error` with its HTTP status. */
  datatype Response = Success(message: string) | WpError(code: string, message: string, status: nat)

  /** A handler's decision before the database is touched. */
  datatype Plan = Reply(response: Response) | Issue(call: DbCall)

  /** PHP truthiness of an optional string: null, `""` and `"0"` are false. */
  predicate TruthyText(s: Option<string>) {
    s.Some? && s.value != "" && s.value != "0"
  }

  /** PHP truthiness of an optional integer: null and `0` are false. */
  predicate TruthyInt(i: Option<int>) {
    i.Some? && i.value != 0
  }

  /** PHP truthiness of a `$wpdb` result: `false` and `0` rows are false. */
  predicate TruthyRows(r: DbResult) {
    r.Rows? && r.count != 0
  }

  /** The owner of a new row: the logged-in user, or user 1 when nobody is logged in. */
  function EffectiveUserId(current: int): (uid: int)
    ensures current == 0 ==> uid == 1
    ensures current != 0 ==> uid == current
  {
    if current == 0 then 1 else current
  }

  function TextOrEmpty(s: Option<string>): string {
    if s.Some? then s.value else ""
  }

  // ---------------------------------------------------------------- add

  /** `add` before the insert: a missing or falsy date or amount is refused; the description never is. */
  function PlanAdd(p: Params, currentUserId: int): (r: Plan)
    ensures r.Reply? <==> !TruthyText(p.date) || !TruthyInt(p.amount)
    ensures r.Reply? ==> r.response == WpError("missing_fields", "Tanggal dan jumlah harus diisi.", 400)
    ensures r.Issue? ==>
      && r.call.InsertRow? && r.call.userId != 0
      && r.call.date == p.date.value && r.call.amount == p.amount.value
      && (p.description.Some? ==> r.call.description == p.description.value)
      && (p.description.None? ==> r.call.description == "")
      && (currentUserId == 0 ==> r.call.userId == 1)
      && (currentUserId != 0 ==> r.call.userId == currentUserId)
  {
    if !TruthyText(p.date) || !TruthyInt(p.amount) then
      Reply(WpError("missing_fields", "Tanggal dan jumlah harus diisi.", 400))
    else
      Issue(InsertRow(EffectiveUserId(currentUserId), p.date.value, p.amount.value, TextOrEmpty(p.description)))
  }

  /** `add`: `db` stands for the database layer. */
  function Add(p: Params, currentUserId: int, db: DbCall -> DbResult): (r: Response)
    ensures r.Success? <==> PlanAdd(p, currentUserId).Issue? && TruthyRows(db(PlanAdd(p, currentUserId).call))
    ensures r.WpError? ==>
      || (r.code == "missing_fields" && r.status == 400)
      || (r.code == "insert_failed" && r.status == 500)
    ensures r.WpError? && r.status == 400 <==> !TruthyText(p.date) || !TruthyInt(p.amount)
  {
    match PlanAdd(p, currentUserId)
    case Reply(response) => response
    case Issue(call) =>
      if TruthyRows(db(call)) then
        Success("Pengeluaran berhasil ditambahkan.")
      else
        WpError("insert_failed", "Gagal menambahkan data.", 500)
  }

  // ------------------------------------------------------------- delete

  /** `delete` before the delete: an id that coerces to 0 is refused. */
  function PlanDelete(id: int): (r: Plan)
    ensures r.Reply? <==> id == 0
    ensures r.Reply? ==> r.response == WpError("invalid_id", "ID tidak valid.", 400)
    ensures r.Issue? ==> r.call == DeleteRow(id)
  {
    if id == 0 then Reply(WpError("invalid_id", "ID tidak valid.", 400)) else Issue(DeleteRow(id))
  }

  /** `delete`: success only when the delete reports at least one row. */
  function Delete(id: int, db: DbCall -> DbResult): (r: Response)
    ensures r.Success? <==> id != 0 && TruthyRows(db(DeleteRow(id)))
    ensures r.WpError? ==>
      || (r.code == "invalid_id" && r.status == 400 && id == 0)
      || (r.code == "delete_failed" && r.status == 500 && id != 0)
  {
    match PlanDelete(id)
    case Reply(response) => response
    case Issue(call) =>
      if TruthyRows(db(call)) then
        Success("Data dengan ID " + FromInt(id) + " berhasil dihapus.")
      else
        WpError("delete_failed", "Gagal menghapus data dengan ID " + FromInt(id) + ".", 500)
  }

  // ------------------------------------------------------------- update

  /** `update` before the update: a falsy id, date or amount is refused. */
  function PlanUpdate(id: int, p: Params): (r: Plan)
    ensures r.Reply? <==> id == 0 || !TruthyText(p.date) || !TruthyInt(p.amount)
    ensures r.Reply? ==> r.response == WpError("invalid_input", "ID, tanggal, dan jumlah harus diisi.", 400)
    ensures r.Issue? ==>
      && r.call.UpdateRow? && r.call.id == id
      && r.call.date == p.date.value && r.call.amount == p.amount.value
      && (p.description.Some? ==> r.call.description == p.description.value)
      && (p.description.None? ==> r.call.description == "")
  {
    if id == 0 || !TruthyText(p.date) || !TruthyInt(p.amount) then
      Reply(WpError("invalid_input", "ID, tanggal, dan jumlah harus diisi.", 400))
    else
      Issue(UpdateRow(id, p.date.value, p.amount.value, TextOrEmpty(p.description)))
  }

  /** `update`: anything but `false` from the update is success, 0 rows included. */
  function Update(id: int, p: Params, db: DbCall -> DbResult): (r: Response)
    ensures r.Success? <==> PlanUpdate(id, p).Issue? && db(PlanUpdate(id, p).call) != DbFalse
    ensures r.WpError? ==>
      || (r.code == "invalid_input" && r.status == 400)
      || (r.code == "update_failed" && r.status == 500)
    ensures r.WpError? && r.status == 400 <==> id == 0 || !TruthyText(p.date) || !TruthyInt(p.amount)
  {
    match PlanUpdate(id, p)
    case Reply(response) => response
    case Issue(call) =>
      if db(call) != DbFalse then
        Success("Data dengan ID " + FromInt(id) + " berhasil diperbarui.")
      else
        WpError("update_failed", "Gagal memperbarui data dengan ID " + FromInt(id) + ".", 500)
  }

  // -------------------------------------------------------- properties

  /** A refused request gets the same response whatever the database would have done. */
  lemma RefusalIgnoresDatabase(id: int, p: Params, currentUserId: int, db1: DbCall -> DbResult, db2: DbCall -> DbResult)
    ensures PlanAdd(p, currentUserId).Reply? ==> Add(p, currentUserId, db1) == Add(p, currentUserId, db2)
    ensures PlanDelete(id).Reply? ==> Delete(id, db1) == Delete(id, db2)
    ensures PlanUpdate(id, p).Reply? ==> Update(id, p, db1) == Update(id, p, db2)
  {
  }

  /** A write that touches no row: `update` reports success, `delete` reports failure. */
  lemma ZeroRowsUpdateVersusDelete(id: int, p: Params, db: DbCall -> DbResult)
    requires id != 0 && TruthyText(p.date) && TruthyInt(p.amount)
    requires db(DeleteRow(id)) == Rows(0)
    requires db(UpdateRow(id, p.date.value, p.amount.value, TextOrEmpty(p.description))) == Rows(0)
    ensures Update(id, p, db).Success?
    ensures Delete(id, db) == WpError("delete_failed", "Gagal menghapus data dengan ID " + FromInt(id) + ".", 500)
  {
  }

  /** Only the sign-free rule "nonzero" applies to the amount: a negative amount is inserted. */
  lemma NegativeAmountAccepted(date: string, amount: int, currentUserId: int)
    requires date != "" && date != "0" && amount < 0
    ensures PlanAdd(Params(Some(date), Some(amount), None), currentUserId)
         == Issue(InsertRow(EffectiveUserId(currentUserId), date, amount, ""))
  {
  }
}
