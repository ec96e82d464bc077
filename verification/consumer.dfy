/** The plain consumer (src/Consumer.php): one right pop per call, no
    acknowledgement. */
module Consumers {
  import opened Mq
  import opened Redis

  /** PHP's `empty()` on a popped string: the empty string and "0". */
  predicate PhpEmpty(s: Bin) {
    s == "" || s == "0"
  }

  /** Only a string of at most one byte, and that byte '0', is taken for
      empty: no longer element is ever dropped by the `empty()` test. */
  lemma PhpEmptyOnlyShort(s: Bin)
    ensures PhpEmpty(s) ==> |s| <= 1 && forall i :: 0 <= i < |s| ==> s[i] == '0'
    ensures |s| >= 2 ==> !PhpEmpty(s)
  {
  }

  class Consumer {
    const store: Store
    const channel: Bin
    const protocol: Protocol

    constructor (store: Store, channel: Bin, protocol: Protocol)
      ensures this.store == store && this.channel == channel && this.protocol == protocol
    {
      this.store := store;
      this.channel := channel;
      this.protocol := protocol;
    }

    /** Pops the rightmost element and decodes it; null when nothing was
        popped or the popped string is PHP-empty (it is gone all the same). */
    method Consume() returns (r: Result<Option<Message>>)
      modifies store`data
      ensures !store.up ==> r == Err(MqException(RedisError)) && store.data == old(store.data)
      ensures store.up ==>
                var pop := RPopReply(old(store.data), channel);
                && store.data == pop.data
                && r == if pop.value.None? || PhpEmpty(pop.value.value) then Ok(None)
                        else protocol.Decoded(pop.value.value)
    {
      if !store.up {
        return Err(MqException(RedisError));
      }
      var data := store.RPop(channel);
      if data.None? || PhpEmpty(data.value) {
        return Ok(None);
      }
      r := protocol.Decoded(data.value);
    }

    /** The blocking pop: null on timeout, otherwise the decoded element. */
    method WaitMessage(timeout: int) returns (r: Result<Option<Message>>)
      modifies store`data
      ensures !store.up ==> r == Err(MqException(RedisError)) && store.data == old(store.data)
      ensures store.up ==>
                var pop := BRPopReply(old(store.data), channel);
                && store.data == pop.data
                && r == if pop.value.None? then Ok(None) else protocol.Decoded(pop.value.value.1)
    {
      if !store.up {
        return Err(MqException(RedisError));
      }
      var data := store.BRPop(channel, timeout);
      if data.None? {
        return Ok(None);
      }
      r := protocol.Decoded(data.value.1);
    }

    /** The number of elements in the channel's list. */
    method GetLength() returns (r: Result<int>)
      ensures store.up ==> r == Ok(|ListAt(store.data, channel)|)
      ensures !store.up ==> r == Err(MqException(RedisError))
    {
      if !store.up {
        return Err(MqException(RedisError));
      }
      var len := store.LLen(channel);
      r := Ok(len);
    }
  }

  /** `new Consumer(...)`: an empty channel name is refused. */
  method NewConsumer(store: Store, channel: Bin, protocol: Protocol) returns (r: Result<Consumer>)
    ensures channel == "" <==> r.Err?
    ensures r.Err? ==> r.failure == MqException(ParamError)
    ensures r.Ok? ==> fresh(r.value) && r.value.store == store && r.value.channel == channel
  {
    if channel == "" {
      return Err(MqException(ParamError));
    }
    var c := new Consumer(store, channel, protocol);
    r := Ok(c);
  }

  /** A pop takes exactly the rightmost element: what remains is the list
      without its last element, and the other keys are untouched. An empty list
      yields nothing and changes nothing. */
  lemma PopTakesRightmost(d: Data, channel: Bin)
    ensures var pop := RPopReply(d, channel);
            var l := ListAt(d, channel);
            && (pop.value.None? <==> l == [])
            && (pop.value.Some? ==> l == ListAt(pop.data, channel) + [pop.value.value])
            && (pop.value.None? ==> pop.data == d)
            && pop.data - {channel} == d - {channel}
  {
    var l := ListAt(d, channel);
    if l != [] {
      assert l == l[..|l| - 1] + [l[|l| - 1]];
    }
  }
}
