/** The `/api/ai-chat` handler: validate the message, ask the completion
    provider, and on a non-success answer fall back to the keyword rule set. */
module Chat {
  import opened Http
  import opened Text
  import opened Fallback

  const MessageRequired := "Message is required"
  const Apology := "Sorry, I encountered an error. Please try again or contact me directly."

  /** What the call to the completion provider came to. `Answered` is a
      success status with a parsed body whose first choice's content is
      `content` (None when any link of that path is missing); `NotOk` is a
      non-success status; `Threw` is a rejected fetch or an unparsable body. */
  datatype Upstream = Answered(content: Option<string>) | NotOk | Threw

  /** The reply to a chat request whose body field `message` is `message`,
      given what the completion provider would answer. */
  function Resolve(message: Field, upstream: Upstream): (r: Reply)
    // a missing or empty message is refused before anything else runs
    ensures !Truthy(message) <==> r == Reply(400, false, Message(MessageRequired))
    // a successful completion is passed through verbatim
    ensures Truthy(message) && upstream.Answered? ==> r == Reply(200, true, Response(upstream.content))
    // a non-success status on a string message yields the fallback reply
    ensures (Truthy(message) && upstream.NotOk? && message.Text?) ==>
              r == Reply(200, true, Response(Some(FallbackReply(message.s))))
    // the 500 apology covers exactly the exceptions of the `try` block
    ensures r.status == 500 <==> Truthy(message) && (upstream.Threw? || (upstream.NotOk? && !message.Text?))
    ensures r.status == 500 ==> r == Reply(500, false, Message(Apology))
    // success and status 200 go together
    ensures r.success <==> r.status == 200
  {
    if !Truthy(message) then Reply(400, false, Message(MessageRequired))
    else
      match upstream
      case Answered(content) => Reply(200, true, Response(content))
      case NotOk =>
        // `message.toLowerCase()` throws unless the message is a string
        if message.Text? then Reply(200, true, Response(Some(FallbackReply(message.s))))
        else Reply(500, false, Message(Apology))
      case Threw => Reply(500, false, Message(Apology))
  }

  /** Whenever the provider answers with a non-success status, a string
      message is answered with one of the seven fixed replies and never with
      a 400 or a 500. */
  lemma NotOkAnswersFromRuleSet(message: string)
    requires message != ""
    ensures Resolve(Text(message), NotOk).status == 200
    ensures Resolve(Text(message), NotOk).success
    ensures Resolve(Text(message), NotOk).payload.Response?
    ensures Resolve(Text(message), NotOk).payload.response.Some?
    ensures Resolve(Text(message), NotOk).payload.response.value in Replies()
  {
    FallbackInReplies(message);
  }

  /** A refused message does not depend on the provider: it is never asked. */
  lemma RefusalIgnoresUpstream(message: Field, u: Upstream, v: Upstream)
    requires !Truthy(message)
    ensures Resolve(message, u) == Resolve(message, v)
  {
  }

  /** A non-empty message made only of spaces, tabs and line breaks. */
  predicate Blank(s: string) {
    s != "" && forall i :: 0 <= i < |s| ==> s[i] in {' ', '\t', '\n', '\r'}
  }

  /** A whitespace-only message is not refused, since the check is
      truthiness and not emptiness after trimming; when the provider answers
      with a non-success status it gets the default reply, since no key can
      occur in whitespace. */
  lemma WhitespaceIsAccepted(s: string, u: Upstream)
    requires Blank(s)
    ensures Resolve(Text(s), u).status != 400
    ensures Resolve(Text(s), NotOk) == Reply(200, true, Response(Some(Default)))
  {
    var lower := Lower(s);
    forall j | 0 <= j < |Entries| ensures !Includes(lower, Entries[j].0) {
      NoKeyInBlank(s, Entries[j].0);
    }
    FirstMatchNone(Entries, lower, Default);
  }

  /** A key starting with a letter occurs nowhere in a lowered blank message:
      every window of it starts with whitespace. */
  lemma NoKeyInBlank(s: string, key: string)
    requires Blank(s)
    requires |key| > 0 && IsLower(key[0])
    ensures !Includes(Lower(s), key)
  {
    var lower := Lower(s);
    forall i: nat ensures !OccursAt(lower, key, i) {
      if i + |key| <= |lower| {
        assert lower[i..i + |key|][0] == LowerChar(s[i]) == s[i];
      }
    }
  }
}
