/** The canonical error shape and its normaliser `parseApiError`
    (utils/error.utils.ts, types/api.types.ts). */
module ErrorUtils {
  import opened Wrappers
  import opened Strings

  /** A decoded JSON response body. Numbers are integers here; `null` and a
      missing body are both `JNull`. */
  datatype Json =
    | JNull
    | JBool(b: bool)
    | JNum(n: int)
    | JStr(s: string)
    | JArr(items: seq<Json>)
    | JObj(fields: map<string, Json>)

  /** JavaScript truthiness of a JSON value. */
  predicate Truthy(v: Json) {
    match v
    case JNull => false
    case JBool(b) => b
    case JNum(n) => n != 0
    case JStr(s) => s != ""
    case JArr(_) => true
    case JObj(_) => true
  }

  /** `typeof v === "object"`: true of null, arrays and objects. */
  predicate IsObjectType(v: Json) {
    v.JNull? || v.JArr? || v.JObj?
  }

  /** `v.name`: own fields of an object; every other kind of value has none. */
  function Property(v: Json, name: string): Option<Json> {
    if v.JObj? && name in v.fields then Some(v.fields[name]) else None
  }

  /** The HTTP response attached to a transport error. */
  datatype Response = Response(status: nat, data: Json)

  /** Whatever a failed call rejects with: an axios transport error (with an
      optional response and an optional error code) or any other thrown value
      (with its optional `message`). */
  datatype RawError =
    | Transport(response: Option<Response>, code: Option<string>)
    | Foreign(message: Option<string>)

  /** The canonical error record `AppError`. */
  datatype AppError = AppError(
    code: string,
    message: string,
    statusCode: nat,
    fieldErrors: Option<map<string, Json>>)

  /** What a rejected service promise carries: the interceptor's parsed
      `AppError`, or a raw error that never went through `parseApiError`. */
  datatype Rejection = Canonical(error: AppError) | Raw(raw: RawError)

  /** `(err as any)?.statusCode`: only canonical errors have that property. */
  function StatusCodeOf(r: Rejection): Option<nat> {
    if r.Canonical? then Some(r.error.statusCode) else None
  }

  const GenericMessage := "Something went wrong. Please try again."
  const UnexpectedMessage := "An unexpected error occurred."

  /** The `defaultMessages` table: a message exactly for the eight listed
      statuses, never the empty string (so the `||` fallback never skips a
      listed status) and never the generic text. */
  function DefaultMessage(status: nat): (m: Option<string>)
    ensures m.Some? <==> InTable(status)
    ensures m.Some? ==> m.value != "" && m.value != GenericMessage
  {
    if status == 400 then Some("Please check the information you entered.")
    else if status == 401 then Some("Your session has expired. Please log in again.")
    else if status == 403 then Some("You are not allowed to perform this action.")
    else if status == 404 then Some("The requested resource was not found.")
    else if status == 409 then Some("This action conflicts with existing data.")
    else if status == 422 then Some("Some fields contain invalid data.")
    else if status == 429 then Some("Too many attempts. Please wait and try again.")
    else if status == 500 then Some("Something went wrong on our end. Please try again later.")
    else None
  }

  /** Different listed statuses get different messages: the message alone
      tells which listed status the server sent. */
  lemma DefaultMessagesDistinct(a: nat, b: nat)
    requires InTable(a) && InTable(b) && a != b
    ensures DefaultMessage(a) != DefaultMessage(b)
  {
  }

  predicate InTable(status: nat) {
    status in {400, 401, 403, 404, 409, 422, 429, 500}
  }

  /** `response?.status || 0`. */
  function StatusOf(e: RawError): nat {
    if e.Transport? && e.response.Some? then e.response.value.status else 0
  }

  /** `data.message` when it is a non-empty string. */
  function PayloadMessage(data: Json): Option<string> {
    var m := Property(data, "message");
    if m.Some? && m.value.JStr? && m.value.s != "" then Some(m.value.s) else None
  }

  /** The own enumerable keys of an array are its indices, written in decimal. */
  function IndexEntries(items: seq<Json>): (m: map<string, Json>)
    ensures forall i :: 0 <= i < |items| ==> NatToString(i) in m && m[NatToString(i)] == items[i]
    ensures forall k :: k in m ==> exists i :: 0 <= i < |items| && k == NatToString(i)
  {
    NatToStringInjectiveAll();
    map i | 0 <= i < |items| :: NatToString(i) := items[i]
  }

  /** The copy the `for (key in data.errors)` loop makes. */
  function CopyEntries(errors: Json): map<string, Json>
    requires errors.JArr? || errors.JObj?
  {
    if errors.JObj? then errors.fields else IndexEntries(errors.items)
  }

  /** `fieldErrors`: present exactly when `data.errors` is truthy and of object type. */
  function PayloadFieldErrors(data: Json): Option<map<string, Json>> {
    var e := Property(data, "errors");
    if e.Some? && Truthy(e.value) && IsObjectType(e.value) then Some(CopyEntries(e.value)) else None
  }

  /** `parseApiError`. */
  function ParseApiError(e: RawError): (r: AppError)
    // statusCode is the response status, 0 without a response
    ensures r.statusCode == (if e.Transport? && e.response.Some? then e.response.value.status else 0)
    // a non-empty string payload message wins, else the table, else the generic text
    ensures e.Transport? ==>
      var data := if e.response.Some? then e.response.value.data else JNull;
      var m := Property(data, "message");
      if m.Some? && m.value.JStr? && m.value.s != "" then r.message == m.value.s
      else if InTable(r.statusCode) then r.message == DefaultMessage(r.statusCode).value
      else r.message == GenericMessage
    // fieldErrors is defined exactly when data.errors is a truthy object or array, and copies all of it
    ensures e.Transport? ==>
      var data := if e.response.Some? then e.response.value.data else JNull;
      var errs := Property(data, "errors");
      && (r.fieldErrors.Some? <==> errs.Some? && (errs.value.JObj? || errs.value.JArr?))
      && (r.fieldErrors.Some? && errs.value.JObj? ==> r.fieldErrors.value == errs.value.fields)
      && (r.fieldErrors.Some? && errs.value.JArr? ==>
            forall i :: 0 <= i < |errs.value.items| ==>
              NatToString(i) in r.fieldErrors.value && r.fieldErrors.value[NatToString(i)] == errs.value.items[i])
    // the transport code when non-empty, else "HTTP_" followed by the status
    ensures e.Transport? && e.code.Some? && e.code.value != "" ==> r.code == e.code.value
    ensures e.Transport? && (e.code.None? || e.code.value == "") ==> r.code == "HTTP_" + NatToString(r.statusCode)
    // any other thrown value
    ensures e.Foreign? ==> r.code == "UNKNOWN" && r.statusCode == 0 && r.fieldErrors.None?
    ensures e.Foreign? ==> r.message == (if e.message.Some? && e.message.value != "" then e.message.value else UnexpectedMessage)
  {
    match e
    case Transport(response, code) =>
      var status := StatusOf(e);
      var fallback := if DefaultMessage(status).Some? then DefaultMessage(status).value else GenericMessage;
      var data := if response.Some? then response.value.data else JNull;
      var message := if Truthy(data) && PayloadMessage(data).Some? then PayloadMessage(data).value else fallback;
      var fieldErrors := if Truthy(data) then PayloadFieldErrors(data) else None;
      AppError(
        if code.Some? && code.value != "" then code.value else "HTTP_" + NatToString(status),
        message, status, fieldErrors)
    case Foreign(message) =>
      AppError("UNKNOWN", if message.Some? && message.value != "" then message.value else UnexpectedMessage, 0, None)
  }

  /** The status a synthesised "HTTP_<status>" code carries, read back. */
  function StatusFromCode(code: string): Option<nat> {
    if StartsWith(code, "HTTP_") && |code| > 5 && AllDigits(code[5..]) then Some(ParseNat(code[5..])) else None
  }

  /** Without a transport code the status can be recovered from the synthesised code. */
  lemma SynthesisedCodeCarriesStatus(e: RawError)
    requires e.Transport? && (e.code.None? || e.code.value == "")
    ensures StatusFromCode(ParseApiError(e).code) == Some(ParseApiError(e).statusCode)
  {
    var r := ParseApiError(e);
    var digits := NatToString(r.statusCode);
    assert r.code == "HTTP_" + digits;
    assert r.code[5..] == digits;
    ParseNatToString(r.statusCode);
  }

  /** Every key of an array-shaped `errors` payload reads back as an index of that array. */
  lemma IndexKeysReadBack(items: seq<Json>, k: string)
    requires k in IndexEntries(items)
    ensures AllDigits(k) && ParseNat(k) < |items| && IndexEntries(items)[k] == items[ParseNat(k)]
  {
    var i :| 0 <= i < |items| && k == NatToString(i);
    ParseNatToString(i);
  }
}
