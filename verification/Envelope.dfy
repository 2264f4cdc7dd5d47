/** The envelope exchanged over the WebSocket, with its JSON payload already decoded. */
module Envelope {
  import opened Common

  /** What json.Unmarshal finds in a payload; a missing field is the empty string. */
  datatype Fields = Fields(text: string, content: string)

  datatype Data =
    | NoData
    | Raw(bytes: string, decoded: Option<Fields>)               // sent by a client; None: not decodable
    | Delivery(messageId: Uuid, content: string, timestamp: int) // the hub's "message" payload
    | Receipt(messageId: Uuid)                                   // the hub's "ack" payload, status "sent"
    | Problem(message: string)                                   // the hub's "error" payload

  datatype WSMessage = WSMessage(
    event: string, senderID: UserId, receiverID: UserId, receiverType: string, data: Data)

  const RECEIVER_USER := "user"
  const RECEIVER_GROUP := "group"
  const SYSTEM := "system"

  /** text wins over content; an empty text counts as missing. */
  function ExtractMessageText(data: Data): (r: Option<string>)
    ensures r.Some? ==> r.value != ""
  {
    match data
    case Raw(_, Some(f)) =>
      if f.text != "" then Some(f.text) else if f.content != "" then Some(f.content) else None
    case Delivery(_, content, _) => if content != "" then Some(content) else None
    case _ => None
  }

  /** The text field wins, then the content field; a payload with neither, or that cannot be decoded, has no text. */
  lemma TextOfPayload(bytes: string, f: Fields)
    ensures var r := ExtractMessageText(Raw(bytes, Some(f)));
      && (f.text != "" ==> r == Some(f.text))
      && (f.text == "" && f.content != "" ==> r == Some(f.content))
      && (r == None <==> f.text == "" && f.content == "")
    ensures ExtractMessageText(Raw(bytes, None)) == None && ExtractMessageText(NoData) == None
  {
  }

  function Presence(user: UserId, online: bool): WSMessage {
    WSMessage(if online then "user_online" else "user_offline", user, "", "", NoData)
  }

  function Failure(user: UserId, message: string): WSMessage {
    WSMessage("error", SYSTEM, user, RECEIVER_USER, Problem(message))
  }

  predicate IsDirectMessage(m: WSMessage) {
    m.event == "message" && m.receiverType == RECEIVER_USER
  }
}
