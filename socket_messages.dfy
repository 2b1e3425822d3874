/** The messages `useSocket` hands to the chat UI: the optimistic message built
    when a message is sent, and the acknowledged message built from the server's
    acknowledgement. */
module SocketMessages {
  import opened Wrappers
  import opened Js

  /** `'sending' | 'sent' | 'read' | 'failed'`; the hook never assigns `Read`. */
  datatype DeliveryStatus = Sending | Sent | Read | Failed

  datatype UIMessage = UIMessage(
    id: string, localId: Option<string>, senderId: string, receiverId: string,
    text: string, createdAt: string, status: DeliveryStatus)

  /** The acknowledgement `{ ok, id?, error?, localId? }`; `ok` is read for its truthiness. */
  datatype AckResponse = AckResponse(ok: bool, id: Option<string>, error: Option<string>, localId: Option<string>)

  const LocalPrefix := "local-"
  const FailedPrefix := "[FAILED] "

  /** `` `local-${Date.now()}` `` for the clock reading `clockMs`. */
  function LocalId(clockMs: nat): (s: string)
    ensures |s| > |LocalPrefix| && s[..|LocalPrefix|] == LocalPrefix
    ensures AllDigits(s[|LocalPrefix|..])
  {
    var s := LocalPrefix + DecimalString(clockMs);
    assert s[|LocalPrefix|..] == DecimalString(clockMs);
    s
  }

  /** The clock reading a local id was made from. */
  function ClockOf(localId: string): nat
    requires |localId| >= |LocalPrefix| && AllDigits(localId[|LocalPrefix|..])
  {
    ParseDecimal(localId[|LocalPrefix|..])
  }

  /** A local id gives back its clock reading, so two sends get the same local id
      exactly when they read the same millisecond (the id is not unique beyond that). */
  lemma LocalIdRoundTrip(a: nat, b: nat)
    ensures ClockOf(LocalId(a)) == a
    ensures LocalId(a) == LocalId(b) <==> a == b
  {
    assert LocalId(a)[|LocalPrefix|..] == DecimalString(a);
    assert LocalId(b)[|LocalPrefix|..] == DecimalString(b);
    ParseDecimalString(a);
    ParseDecimalString(b);
  }

  /** The optimistic message passed to `optimisticUpdate` before the emit. */
  function OptimisticMessage(localId: string, senderId: string, receiverId: string, text: string, createdAt: string)
    : UIMessage
  {
    UIMessage(localId, Some(localId), senderId, receiverId, text, createdAt, Sending)
  }

  /** The message passed to `ackCallback`: the optimistic message with the id,
      status and text the acknowledgement decides. `localId` and `text` are the
      values the emit's callback captured. */
  function AcknowledgedMessage(optimistic: UIMessage, localId: string, text: string, response: AckResponse)
    : UIMessage
  {
    optimistic.(
      id := Or(response.id, localId),
      status := if response.ok then Sent else Failed,
      text := if response.ok then text else FailedPrefix + text)
  }

  /** The text the user typed, read back from an acknowledged message. */
  function OriginalText(m: UIMessage): string {
    if m.status == Failed && |m.text| >= |FailedPrefix| && m.text[..|FailedPrefix|] == FailedPrefix
    then m.text[|FailedPrefix|..]
    else m.text
  }

  /** The optimistic message is identified by its local id, is `sending`, goes
      from the current user to the addressee and carries the text unchanged. */
  lemma OptimisticMessageShape(clockMs: nat, senderId: string, receiverId: string, text: string, createdAt: string)
    ensures var m := OptimisticMessage(LocalId(clockMs), senderId, receiverId, text, createdAt);
      && m.id == LocalPrefix + DecimalString(clockMs) && m.localId == Some(m.id)
      && m.status == Sending && m.senderId == senderId && m.receiverId == receiverId
      && m.text == text && OriginalText(m) == text
  {
  }

  /** The acknowledged message is `sent` exactly when the server says ok; its text
      reads back as the typed text either way (decorated with `[FAILED] ` on
      failure); its id is the server's id when one is given and the local id
      otherwise; local id, sender, receiver and creation time are kept. */
  lemma AcknowledgedMessageShape(clockMs: nat, senderId: string, receiverId: string, text: string,
                                 createdAt: string, response: AckResponse)
    ensures var localId := LocalId(clockMs);
      var m := OptimisticMessage(localId, senderId, receiverId, text, createdAt);
      var a := AcknowledgedMessage(m, localId, text, response);
      && (a.status == Sent <==> response.ok)
      && (a.status == Failed <==> !response.ok)
      && a.status != Read
      && (response.ok ==> a.text == text)
      && (!response.ok ==> a.text == FailedPrefix + text)
      && OriginalText(a) == text
      && (Truthy(response.id) ==> a.id == response.id.value)
      && (!Truthy(response.id) ==> a.id == localId)
      && a.localId == m.localId && a.senderId == senderId && a.receiverId == receiverId
      && a.createdAt == createdAt
  {
    var a := AcknowledgedMessage(OptimisticMessage(LocalId(clockMs), senderId, receiverId, text, createdAt),
                                 LocalId(clockMs), text, response);
    if !response.ok {
      assert a.text[..|FailedPrefix|] == FailedPrefix;
      assert a.text[|FailedPrefix|..] == text;
    }
  }
}
