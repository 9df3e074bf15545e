/** The `/api/contact` handler: name, email and message must all be truthy;
    the submission is only logged, and a fixed thank-you is sent. */
module Contact {
  import opened Http

  const FieldsRequired := "Name, email, and message are required"
  const ThankYou := "Thank you for your message! I will get back to you soon."

  /** The three required fields are present and non-empty. */
  predicate Complete(name: Field, email: Field, message: Field) {
    Truthy(name) && Truthy(email) && Truthy(message)
  }

  /** The reply to a contact form submission. */
  function Submit(name: Field, email: Field, message: Field, subject: Field): (r: Reply)
    ensures !Complete(name, email, message) <==> r == Reply(400, false, Message(FieldsRequired))
    ensures Complete(name, email, message) <==> r == Reply(200, true, Message(ThankYou))
    ensures r.success <==> r.status == 200
  {
    if !Truthy(name) || !Truthy(email) || !Truthy(message) then
      Reply(400, false, Message(FieldsRequired))
    else
      Reply(200, true, Message(ThankYou))
  }

  /** The optional subject never affects the reply. */
  lemma SubjectIgnored(name: Field, email: Field, message: Field, s: Field, t: Field)
    ensures Submit(name, email, message, s) == Submit(name, email, message, t)
  {
  }

  /** Any one required field missing or empty is enough for a 400. */
  lemma AnyMissingFieldRefused(name: Field, email: Field, message: Field, subject: Field)
    requires name == Absent || name == Text("") || email == Absent || email == Text("")
             || message == Absent || message == Text("")
    ensures Submit(name, email, message, subject).status == 400
    ensures !Submit(name, email, message, subject).success
  {
  }
}
