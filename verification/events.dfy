/** The socket event contract between the server and the browser client. */
module Events {
  import opened Js
  import opened UserModel
  import opened MessageModel

  type SocketId = string

  /** The content patch of a `messageViewed` event. */
  datatype ViewedContent = ViewedContent(text: StringField, image: StringField, isViewed: bool)

  datatype Payload =
    | NewMessage(message: Message, unreadCount: nat, fromUser: UserId)
    | MessageViewed(messageId: MessageId, viewedContent: ViewedContent)

  /** One emission: `io.to(socket).emit(name, payload)`. */
  datatype Event = Event(socket: SocketId, payload: Payload)
}
