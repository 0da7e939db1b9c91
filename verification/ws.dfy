/**
 * The per-connection logic of src/ws.rs over the shared client registry.
 *
 * `client_msg` classifies one inbound websocket message and, for a valid
 * topics request, replaces the connected client's topic list.
 * `client_connection` attaches the outbound sender to the client, inserts it
 * into the registry, feeds the inbound frames to `client_msg` one at a time
 * until the stream ends or the first receive error, and finally removes the
 * client.
 *
 * The registry is the `Registry` class below, whose one field is the
 * `id -> Client` map. Its methods are proved against the functions `Apply`
 * (one message) and `Connection` (a whole connection). The lemmas after the
 * class state what those functions promise.
 */
module Ws {

  import opened Wrappers
  import opened Structs

  /** The JSON decoding of a topics request, which the model takes as a given function. */
  type Parser = string -> Option<seq<Topic>>

  /** What `client_msg` does with one message. */
  datatype Action = Ignore | SetTopics(topics: seq<Topic>)

  /** The keep-alive texts that are dropped before any parsing is tried. */
  predicate IsPing(s: string)
  {
    s == "ping" || s == "ping\n"
  }

  /**
   * The decision `client_msg` makes for one message: drop a message that is
   * not text, drop a keep-alive, drop text that does not parse as a topics
   * request, and otherwise replace the topics with the parsed list.
   */
  function Classify(msg: Message, parse: Parser): (a: Action)
    ensures a.SetTopics? <==> msg.Text? && !IsPing(msg.text) && parse(msg.text).Some?
    ensures a.SetTopics? ==> parse(msg.text) == Some(a.topics)
  {
    match msg
    case NonText => Ignore
    case Text(s) =>
      if IsPing(s) then Ignore
      else
        match parse(s)
        case None => Ignore
        case Some(topics) => SetTopics(topics)
  }

  /**
   * The registry after `client_msg(id, msg)`. It never adds or removes a key
   * and never touches another client; the client `id`, when present, keeps
   * everything but its topics, which become exactly the parsed list.
   */
  function Apply(m: map<string, Client>, id: string, msg: Message, parse: Parser): (r: map<string, Client>)
    ensures r.Keys == m.Keys
    ensures forall k :: k in m && k != id ==> r[k] == m[k]
    ensures id in m ==> r[id].info == m[id].info && r[id].sender == m[id].sender
    ensures id in m && Classify(msg, parse).SetTopics? ==> r[id].topics == Classify(msg, parse).topics
    ensures Classify(msg, parse).Ignore? || id !in m ==> r == m
  {
    match Classify(msg, parse)
    case Ignore => m
    case SetTopics(topics) =>
      if id in m then m[id := m[id].(topics := topics)] else m
  }

  /**
   * The number of frames the receive loop hands to `client_msg`: every frame
   * before the first receive error, or all of them when there is none.
   */
  function Consumed(frames: seq<Frame>): (n: nat)
    ensures n <= |frames|
    ensures forall j :: 0 <= j < n ==> frames[j].Received?
    ensures n < |frames| ==> frames[n] == RecvError
    decreases |frames|
  {
    if frames == [] then 0
    else
      match frames[0]
      case RecvError => 0
      case Received(_) => 1 + Consumed(frames[1..])
  }

  /** The messages the receive loop hands to `client_msg`, in order. */
  function Inbound(frames: seq<Frame>): (msgs: seq<Message>)
    ensures |msgs| == Consumed(frames)
    ensures forall j :: 0 <= j < |msgs| ==> frames[j] == Received(msgs[j])
    decreases |frames|
  {
    if frames == [] then []
    else
      match frames[0]
      case RecvError => []
      case Received(msg) => [msg] + Inbound(frames[1..])
  }

  /** The registry after the receive loop has run over `frames`. */
  function Pump(m: map<string, Client>, id: string, frames: seq<Frame>, parse: Parser): map<string, Client>
    decreases |frames|
  {
    if frames == [] then m
    else
      match frames[0]
      case RecvError => m
      case Received(msg) => Pump(Apply(m, id, msg, parse), id, frames[1..], parse)
  }

  /**
   * The registry right after connection setup: the given client, with its
   * sender attached, is stored under `id` whatever was there before.
   */
  function Setup(m: map<string, Client>, id: string, client: Client, channel: ChannelId): (r: map<string, Client>)
    ensures r.Keys == m.Keys + {id}
    ensures r[id].sender == Attached(channel)
    ensures r[id].info == client.info && r[id].topics == client.topics
    ensures forall k :: k in m && k != id ==> r[k] == m[k]
  {
    m[id := client.(sender := Attached(channel))]
  }

  /** The registry after the final removal, which is a no-op when `id` is gone. */
  function Disconnect(m: map<string, Client>, id: string): (r: map<string, Client>)
    ensures r.Keys == m.Keys - {id}
    ensures forall k :: k in r ==> r[k] == m[k]
    ensures id !in m ==> r == m
  {
    m - {id}
  }

  /** The registry after a whole run of `client_connection` on `frames`. */
  function Connection(m: map<string, Client>, id: string, client: Client, channel: ChannelId,
                      frames: seq<Frame>, parse: Parser): map<string, Client>
  {
    Disconnect(Pump(Setup(m, id, client, channel), id, frames, parse), id)
  }

  /** The topics of the last request that takes effect among `msgs`, if any. */
  function LastRequest(msgs: seq<Message>, parse: Parser): Option<seq<Topic>>
    decreases |msgs|
  {
    if msgs == [] then None
    else
      match LastRequest(msgs[1..], parse)
      case Some(topics) => Some(topics)
      case None =>
        match Classify(msgs[0], parse)
        case SetTopics(topics) => Some(topics)
        case Ignore => None
  }

  /** The shared `id -> Client` registry. */
  class Registry {
    var clients: map<string, Client>

    /** The registry starts empty. */
    constructor ()
      ensures clients == map[]
    {
      clients := map[];
    }

    /** Handles one inbound message for the client `id`. */
    method ClientMsg(id: string, msg: Message, parse: Parser)
      modifies this
      ensures clients == Apply(old(clients), id, msg, parse)
    {
      if msg.NonText? {
        return;
      }
      var message := msg.text;
      if IsPing(message) {
        return;
      }
      var request := parse(message);
      if request.None? {
        return;
      }
      if id in clients {
        var v := clients[id];
        clients := clients[id := v.(topics := request.value)];
      }
    }

    /**
     * Runs one connection: attaches `channel` as the client's sender, stores
     * the client under `id`, handles the inbound frames up to the first
     * receive error and removes `id`. The ghost result counts the frames handled.
     */
    method ClientConnection(frames: seq<Frame>, id: string, client: Client, channel: ChannelId, parse: Parser)
      returns (ghost handled: nat)
      modifies this
      ensures handled == Consumed(frames)
      ensures clients == Connection(old(clients), id, client, channel, frames, parse)
    {
      var attached := client.(sender := Attached(channel));
      clients := clients[id := attached];
      ghost var start := clients;

      var i := 0;
      while i < |frames|
        invariant 0 <= i <= |frames|
        invariant forall j :: 0 <= j < i ==> frames[j].Received?
        invariant Pump(clients, id, frames[i..], parse) == Pump(start, id, frames, parse)
        decreases |frames| - i
      {
        match frames[i]
        case RecvError =>
          break;
        case Received(msg) =>
          assert frames[i..][1..] == frames[i + 1..];
          ClientMsg(id, msg, parse);
          i := i + 1;
      }
      handled := i;

      clients := clients - {id};
    }
  }

  /** What the receive loop preserves: the keys, every other client, and the
      sender and remaining fields of client `id`. */
  lemma {:induction false} PumpFrame(m: map<string, Client>, id: string, frames: seq<Frame>, parse: Parser)
    ensures Pump(m, id, frames, parse).Keys == m.Keys
    ensures forall k :: k in m && k != id ==> Pump(m, id, frames, parse)[k] == m[k]
    ensures id in m ==> Pump(m, id, frames, parse)[id].info == m[id].info
    ensures id in m ==> Pump(m, id, frames, parse)[id].sender == m[id].sender
    decreases |frames|
  {
    if frames != [] && frames[0].Received? {
      PumpFrame(Apply(m, id, frames[0].msg, parse), id, frames[1..], parse);
    }
  }

  /** A topics request for an id that is not registered creates no entry. */
  lemma {:induction false} PumpAbsent(m: map<string, Client>, id: string, frames: seq<Frame>, parse: Parser)
    requires id !in m
    ensures Pump(m, id, frames, parse) == m
    decreases |frames|
  {
    if frames != [] && frames[0].Received? {
      PumpAbsent(Apply(m, id, frames[0].msg, parse), id, frames[1..], parse);
    }
  }

  /** `LastRequest` finds exactly the last handled message that takes effect. */
  lemma {:induction false} LastRequestSpec(msgs: seq<Message>, parse: Parser)
    ensures LastRequest(msgs, parse).None? <==> forall j :: 0 <= j < |msgs| ==> Classify(msgs[j], parse).Ignore?
    ensures LastRequest(msgs, parse).Some? ==>
      exists j :: 0 <= j < |msgs| && Classify(msgs[j], parse) == SetTopics(LastRequest(msgs, parse).value) &&
        forall k :: j < k < |msgs| ==> Classify(msgs[k], parse).Ignore?
    decreases |msgs|
  {
    if msgs != [] {
      var tail := msgs[1..];
      LastRequestSpec(tail, parse);
      forall j | 0 <= j < |tail|
        ensures Classify(tail[j], parse) == Classify(msgs[j + 1], parse)
      {
      }
      match LastRequest(tail, parse)
      case Some(topics) =>
        var j :| 0 <= j < |tail| && Classify(tail[j], parse) == SetTopics(topics) &&
          forall k :: j < k < |tail| ==> Classify(tail[k], parse).Ignore?;
        assert Classify(msgs[j + 1], parse) == SetTopics(topics);
        forall k | j + 1 < k < |msgs|
          ensures Classify(msgs[k], parse).Ignore?
        {
          assert msgs[k] == tail[k - 1];
        }
      case None =>
        forall k | 0 < k < |msgs|
          ensures Classify(msgs[k], parse).Ignore?
        {
          assert msgs[k] == tail[k - 1];
        }
    }
  }

  /**
   * Topics are replaced, not merged: after the receive loop, client `id` has
   * the topics of the last request that took effect, or its original topics
   * when no message before the first receive error was a valid request.
   */
  lemma {:induction false} PumpTopics(m: map<string, Client>, id: string, frames: seq<Frame>, parse: Parser)
    requires id in m
    ensures id in Pump(m, id, frames, parse)
    ensures Pump(m, id, frames, parse)[id].topics ==
      match LastRequest(Inbound(frames), parse)
      case Some(topics) => topics
      case None => m[id].topics
    decreases |frames|
  {
    PumpFrame(m, id, frames, parse);
    if frames != [] && frames[0].Received? {
      var msg := frames[0].msg;
      PumpTopics(Apply(m, id, msg, parse), id, frames[1..], parse);
      assert Inbound(frames)[1..] == Inbound(frames[1..]);
    }
  }

  /** No frame after the first receive error has any effect. */
  lemma {:induction false} PumpStopsAtError(m: map<string, Client>, id: string, frames: seq<Frame>,
                                           rest: seq<Frame>, parse: Parser)
    requires Consumed(frames) < |frames|
    ensures Pump(m, id, frames + rest, parse) == Pump(m, id, frames, parse)
    ensures Pump(m, id, frames, parse) == Pump(m, id, frames[..Consumed(frames)], parse)
    decreases |frames|
  {
    if frames[0].Received? {
      assert (frames + rest)[1..] == frames[1..] + rest;
      assert frames[..Consumed(frames)][1..] == frames[1..][..Consumed(frames[1..])];
      PumpStopsAtError(Apply(m, id, frames[0].msg, parse), id, frames[1..], rest, parse);
    }
  }

  /**
   * A message that is dropped (not text, a keep-alive, or not a valid request)
   * changes nothing and does not end the loop: the frames after it are
   * handled exactly as if it had never been sent.
   */
  lemma {:induction false} IgnoredMessageIsNoop(m: map<string, Client>, id: string, pre: seq<Frame>,
                                               msg: Message, post: seq<Frame>, parse: Parser)
    requires Consumed(pre) == |pre|
    requires Classify(msg, parse).Ignore?
    ensures Pump(m, id, pre + [Received(msg)] + post, parse) == Pump(m, id, pre + post, parse)
    decreases |pre|
  {
    if pre == [] {
      assert ([] + [Received(msg)] + post)[1..] == post;
      assert [] + post == post;
    } else {
      assert (pre + [Received(msg)] + post)[1..] == pre[1..] + [Received(msg)] + post;
      assert (pre + post)[1..] == pre[1..] + post;
      IgnoredMessageIsNoop(Apply(m, id, pre[0].msg, parse), id, pre[1..], msg, post, parse);
    }
  }

  /**
   * Run on its own, a connection leaves the registry as it found it except
   * that `id` is gone: its insertion overwrote any earlier entry for `id`,
   * and its removal takes that entry away.
   */
  lemma ConnectionNetEffect(m: map<string, Client>, id: string, client: Client, channel: ChannelId,
                            frames: seq<Frame>, parse: Parser)
    ensures Connection(m, id, client, channel, frames, parse) == m - {id}
  {
    var s := Setup(m, id, client, channel);
    PumpFrame(s, id, frames, parse);
  }

  /**
   * While the connection is open, client `id` is registered with its sender
   * attached, its other fields as given, and the topics of the last request
   * that took effect.
   */
  lemma ConnectionOpenState(m: map<string, Client>, id: string, client: Client, channel: ChannelId,
                            frames: seq<Frame>, parse: Parser)
    ensures id in Pump(Setup(m, id, client, channel), id, frames, parse)
    ensures Pump(Setup(m, id, client, channel), id, frames, parse)[id] ==
      Client(client.info,
             match LastRequest(Inbound(frames), parse)
             case Some(topics) => topics
             case None => client.topics,
             Attached(channel))
  {
    var s := Setup(m, id, client, channel);
    PumpFrame(s, id, frames, parse);
    PumpTopics(s, id, frames, parse);
  }
}
