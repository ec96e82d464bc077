/** The plain producer (src/Producer.php): publishing is a single left push
    onto the channel's list, with no backup and no acknowledgement. */
module Producers {
  import opened Mq
  import opened Redis

  class Producer {
    const store: Store
    const channel: Bin
    const protocol: Protocol

    constructor (store: Store, channel: Bin, protocol: Protocol)
      ensures this.store == store && this.channel == channel && this.protocol == protocol
    {
      this.store := store;
      this.channel := channel;
      this.protocol := protocol;
    }

    /** Encodes the message and pushes it onto the left end of the list;
        true when the push reported a positive length. */
    method Publish(message: Message) returns (r: Result<bool>)
      modifies store`data
      ensures protocol.encode(message).Err? ==>
                r == Err(protocol.encode(message).failure) && store.data == old(store.data)
      ensures protocol.encode(message).Ok? && !store.up ==>
                r == Err(MqException(RedisError)) && store.data == old(store.data)
      ensures protocol.encode(message).Ok? && store.up ==>
                var push := Gated(store.admits(old(store.data)), old(store.data),
                                  LPushReply(old(store.data), channel, protocol.encode(message).value));
                store.data == push.data && r == Ok(push.value > 0)
    {
      var encoded := protocol.encode(message);
      if encoded.Err? {
        return Err(encoded.failure);
      }
      if !store.up {
        return Err(MqException(RedisError));
      }
      var ret := store.LPush(channel, encoded.value);
      r := Ok(ret > 0);
    }

    /** The number of elements in the channel's list. */
    method GetLength() returns (r: Result<int>)
      ensures store.up ==> r == Ok(|ListAt(store.data, channel)|)
      ensures !store.up ==> r == Err(MqException(RedisError))
    {
      if !store.up {
        return Err(MqException(RedisError));
      }
      var len := store.LLen(channel);
      r := Ok(len);
    }
  }

  /** `new Producer(...)`: an empty channel name is refused. */
  method NewProducer(store: Store, channel: Bin, protocol: Protocol) returns (r: Result<Producer>)
    ensures channel == "" <==> r.Err?
    ensures r.Err? ==> r.failure == MqException(ParamError)
    ensures r.Ok? ==> fresh(r.value) && r.value.store == store && r.value.channel == channel
  {
    if channel == "" {
      return Err(MqException(ParamError));
    }
    var p := new Producer(store, channel, protocol);
    r := Ok(p);
  }

  /** A push is accepted exactly when the server admits the write and the
      key holds a list; it then leaves the encoded message at the left end,
      ahead of everything that was queued, and touches no other key. A
      refused push changes nothing. */
  lemma PublishPrepends(d: Data, admitted: bool, channel: Bin, encoded: Bin)
    ensures var push := Gated(admitted, d, LPushReply(d, channel, encoded));
            && (push.value > 0 <==> admitted && TakesList(d, channel))
            && (push.value > 0 ==> ListAt(push.data, channel) == [encoded] + ListAt(d, channel))
            && (push.value > 0 ==> ListAt(push.data, channel)[1..] == ListAt(d, channel))
            && (push.value <= 0 ==> push.data == d)
            && push.data - {channel} == d - {channel}
  {
    var push := LPushReply(d, channel, encoded);
    if TakesList(d, channel) {
      assert ListAt(push.data, channel)[1..] == ListAt(d, channel);
    }
  }
}
