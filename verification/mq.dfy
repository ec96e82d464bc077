/** What producers and consumers share: exception codes
    (src/RedisMQException.php), the message record (src/Message.php) and the
    pluggable codec (src/Protocol.php). */
module Mq {

  /** The codes of RedisMQException. */
  datatype ErrorCode =
    | EnvtError     // a required runtime capability is missing
    | TypeError     // an argument of the wrong kind
    | FormatError   // a payload that does not decode
    | ParamError    // an invalid parameter (empty channel, negative recover time)
    | RedisError    // a wrapped store failure
    | MustAck       // consume/waitMessage while a message is still unacknowledged
    | NeedNotAck    // ack/nack/reserve with nothing to acknowledge

  /** What an operation can throw: the library's own exception, or the store
      client's exception when a call site does not wrap it. */
  datatype Failure = MqException(code: ErrorCode) | RedisException

  datatype Option<+T> = None | Some(value: T)

  /** Normal return or a thrown failure. */
  datatype Result<+T> = Ok(value: T) | Err(failure: Failure)

  /** A PHP string: store keys, list elements, sorted-set members and encoded
      messages. */
  type Bin = string

  /** The caller's payload; the queues never look inside it. */
  type Content = string

  /** A queue message: a producer-assigned id and a payload. */
  datatype Message = Message(uuid: string, content: Content)

  /** A codec. Both directions may throw (a payload that is not a message is
      refused with FormatError); what they compute is left open. */
  datatype Protocol = Protocol(encode: Message -> Result<Bin>, decode: Bin -> Result<Message>)
  {
    /** The decoded message, or the codec's exception passed on unchanged. */
    function Decoded(b: Bin): Result<Option<Message>> {
      match decode(b)
      case Ok(m) => Ok(Some(m))
      case Err(f) => Err(f)
    }
  }
}
