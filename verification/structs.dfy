/**
 * The values that the connection code of src/ws.rs works on: the registered
 * client record and the frames read from the websocket.
 *
 * src/structs.rs, which declares `Client`, `Clients` and `TopicsRequest`, is
 * not part of this model; only the fields that src/ws.rs reads or writes are
 * given a meaning here, and the rest of a client is kept as one opaque value.
 */
module Structs {

  /** A topic name; topics are compared by exact string equality. */
  type Topic = string

  /** Identifies the outbound channel created for one connection. */
  type ChannelId = nat

  /** The client's outbound sender: absent until its connection is established. */
  datatype Sender = Absent | Attached(channel: ChannelId)

  /**
   * A registered client. `info` stands for every field of the client that
   * src/ws.rs neither reads nor writes (such as the owning user).
   */
  datatype Client = Client(info: string, topics: seq<Topic>, sender: Sender)

  /** A websocket message: a text frame, or any other kind (binary, close, ...). */
  datatype Message = Text(text: string) | NonText

  /** One item of the inbound websocket stream: a message or a receive error. */
  datatype Frame = Received(msg: Message) | RecvError
}
