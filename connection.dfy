/**
 * The data channel a sender writes to (`conn`): `send` appends a message,
 * and `bufferSize` is the queued-byte count the channel advertises.
 */
module Channel {
  import opened Wrappers
  import opened TransferMessages

  class Connection {
    /** Every message handed to `send`, in order. */
    var sent: seq<Message>
    /** The value of `bufferSize` at each `send`, parallel to `sent`. */
    var bufferAtSend: seq<Option<int>>
    /** `bufferSize` as last read (None: the property is absent). */
    var bufferSize: Option<int>
    /**
     * The values successive reads of `bufferSize` will return: the transport
     * drains its queue on its own schedule, which the model takes as given.
     */
    var readings: seq<Option<int>>

    ghost predicate Valid()
      reads this
    {
      |bufferAtSend| == |sent|
    }

    constructor (initial: Option<int>, future: seq<Option<int>>)
      ensures Valid()
      ensures sent == [] && bufferAtSend == []
      ensures bufferSize == initial && readings == future
    {
      sent, bufferAtSend := [], [];
      bufferSize, readings := initial, future;
    }

    /** `conn.send(m)`: the message joins the end of the log. */
    method Send(m: Message)
      requires Valid()
      modifies this
      ensures Valid()
      ensures sent == old(sent) + [m]
      ensures bufferAtSend == old(bufferAtSend) + [old(bufferSize)]
      ensures bufferSize == old(bufferSize) && readings == old(readings)
    {
      sent := sent + [m];
      bufferAtSend := bufferAtSend + [bufferSize];
    }

    /** One read of `conn.bufferSize`. */
    method ReadBufferSize() returns (b: Option<int>)
      requires readings != []
      modifies this
      ensures b == old(readings)[0] && bufferSize == b
      ensures readings == old(readings)[1..]
      ensures sent == old(sent) && bufferAtSend == old(bufferAtSend)
    {
      b := readings[0];
      bufferSize := b;
      readings := readings[1..];
    }
  }
}
