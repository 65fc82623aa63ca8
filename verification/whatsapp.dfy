/** `enviarWhatsApp`: the fixed recipient, the message built around `produto`,
    and what happens when the client is not connected yet or the send fails.
    The function reports what happened but always returns normally, so its
    caller cannot tell a failed send from a delivered one. */
module WhatsApp {
  import opened Wrappers
  import opened JsValues

  /** The placeholder destination number and the chat-id suffix it is sent to. */
  const DestinationNumber := "55XXXXXXXXXX"
  const Recipient := DestinationNumber + "@c.us"

  const MessagePrefix := "\U{1F4E2} Lembrete! Seu produto \""
  const MessageSuffix := "\" está com a data próxima."

  /** The text sent for `produto`: the template with `${produto}` filled in. */
  function MessageText(produto: Value): (text: string)
    ensures ProductInMessage(text) == Some(ToText(produto))
  {
    var text := MessagePrefix + ToText(produto) + MessageSuffix;
    assert text[..|MessagePrefix|] == MessagePrefix;
    assert text[|text| - |MessageSuffix|..] == MessageSuffix;
    assert text[|MessagePrefix|..|text| - |MessageSuffix|] == ToText(produto);
    text
  }

  /** The inverse of MessageText: the product named in a message, if the text
      has the template's shape. */
  function ProductInMessage(text: string): Option<string> {
    if |text| >= |MessagePrefix| + |MessageSuffix|
       && text[..|MessagePrefix|] == MessagePrefix
       && text[|text| - |MessageSuffix|..] == MessageSuffix
    then Some(text[|MessagePrefix|..|text| - |MessageSuffix|])
    else None
  }

  /** The message carries the product's text verbatim between the fixed
      prefix and suffix. */
  lemma MessageRoundTrip(produto: Value)
    ensures ProductInMessage(MessageText(produto)) == Some(ToText(produto))
  {
  }

  /** Two products give the same message exactly when they print as the same
      text; so distinct names give distinct messages, while a number and the
      string of its digits (`5` and `"5"`) give the same one. */
  lemma MessageInjective(a: Value, b: Value)
    ensures MessageText(a) == MessageText(b) <==> ToText(a) == ToText(b)
  {
    MessageRoundTrip(a);
    MessageRoundTrip(b);
  }

  datatype Outgoing = Outgoing(to: string, text: string)

  /** What a call did; the caller never looks at it. */
  datatype SendReport =
    | ClientNotReady
    | Sent(message: Outgoing)
    | SendFailed(message: Outgoing)

  /** One call of `enviarWhatsApp`. `ready` says whether the session has been
      created; `sendFails` whether `sendText` rejects. */
  function SendWhatsApp(produto: Value, ready: bool, sendFails: bool): (r: SendReport)
    ensures r.ClientNotReady? <==> !ready
    ensures r.Sent? <==> ready && !sendFails
    ensures !r.ClientNotReady? ==>
      r.message.to == Recipient && ProductInMessage(r.message.text) == Some(ToText(produto))
  {
    if !ready then ClientNotReady
    else
      var message := Outgoing(Recipient, MessageText(produto));
      MessageRoundTrip(produto);
      if sendFails then SendFailed(message) else Sent(message)
  }
}
