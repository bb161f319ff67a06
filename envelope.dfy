/** The envelope exchanged between a client connection and the pool
    (`Message` and `BaseMessage` in websocket.go), and the envelopes the
    system makes up itself: login and logout notices, ping replies and the
    zero-valued `Message{}` that a client forwards for broadcast. */
module Envelope {

  /** `BaseMessage`: a free-form command name and a string payload. */
  datatype BaseMessage = BaseMessage(action: string, body: string)

  /** `Message`: a numeric type tag and a `BaseMessage` body. Every envelope
      the core builds carries the tag 0. */
  datatype Message = Message(msgType: int, body: BaseMessage)

  /** The zero value `Message{}`: tag 0, empty action, empty body. */
  function EmptyMessage(): Message {
    Message(0, BaseMessage("", ""))
  }

  /** Sent to every member when a client registers. */
  function LoginNotice(): Message {
    Message(0, BaseMessage("Login of User", ""))
  }

  /** Sent to every remaining member when a client unregisters. */
  function LogoutNotice(): Message {
    Message(0, BaseMessage("Logout of User", ""))
  }

  /** The direct answer to a ping, echoing the ping's body. */
  function PingReply(body: string): Message {
    Message(0, BaseMessage("ping", body))
  }
}
