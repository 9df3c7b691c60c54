/** The conversation entities shared by the library and the routes. */
module ConversationTypes {

  import opened Wrappers
  import opened JsValues

  datatype Sender = PersonA | PersonB

  /**
   * A conversation message. The declared type of `id` is a string, but the
   * normaliser of the question route copies it from the request with `??`
   * and so keeps whatever JSON value the client sent; the model keeps it a
   * `Value` to say so.
   */
  datatype ConversationMessage = ConversationMessage(id: Value, sender: Sender, text: string, timestamp: Option<string>)

  /** The wire name of a sender. */
  function SenderName(s: Sender): string
  {
    match s
    case PersonA => "personA"
    case PersonB => "personB"
  }

  /** Reads a sender from an untyped value: exactly the two wire names are senders. */
  function SenderOf(v: Value): (r: Option<Sender>)
    ensures r.Some? <==> (v == Str("personA") || v == Str("personB"))
    ensures r.Some? ==> v == Str(SenderName(r.value))
  {
    if v == Str("personA") then Some(PersonA)
    else if v == Str("personB") then Some(PersonB)
    else None
  }

  /** Every sender is read back from its wire name. */
  lemma SenderRoundTrip(s: Sender)
    ensures SenderOf(Str(SenderName(s))) == Some(s)
  {
  }
}
