/** Values the JSON endpoints read from a request body and the replies they
    send back. */
module Http {

  datatype Option<T> = None | Some(value: T)

  /** One field of a parsed JSON request body, as far as the handlers can
      tell values apart: absent (`undefined`), a string, or some other JSON
      value (null, a boolean, a number, an array or an object) together with
      its JavaScript truthiness. */
  datatype Field = Absent | Text(s: string) | NonString(truthy: bool)

  /** JavaScript truthiness of a field: `!field` is false exactly when this
      holds. Strings are truthy when non-empty; no trimming happens. */
  predicate Truthy(f: Field)
    // the falsy fields are exactly undefined, "" and the falsy non-strings
    ensures !Truthy(f) <==> f == Absent || f == Text("") || f == NonString(false)
  {
    match f
    case Absent => false
    case Text(s) => s != ""
    case NonString(t) => t
  }

  /** The JSON body of a reply: `{success, response}` or `{success, message}`.
      A `response` that is `undefined` is dropped by JSON serialisation, which
      `Response(None)` stands for. */
  datatype Payload = Response(response: Option<string>) | Message(message: string)

  /** An HTTP status together with the JSON body sent with it. */
  datatype Reply = Reply(status: nat, success: bool, payload: Payload)

  /** The body fields a handler destructures; a key missing from the body
      reads as `undefined`. */
  function Get(body: map<string, Field>, key: string): (f: Field)
    ensures key !in body ==> f == Absent && !Truthy(f)
    ensures key in body ==> f == body[key]
  {
    if key in body then body[key] else Absent
  }
}
