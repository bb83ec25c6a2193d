/** A TCP connection as one of its ends sees it. */
module Connection {
  import opened Bytes
  import opened Options

  class Socket {
    /** Every byte the peer sends before it closes, from the first one not yet received. */
    var incoming: seq<Byte>
    /** Every byte sent so far. */
    var outgoing: seq<Byte>

    constructor (incoming: seq<Byte>)
      ensures this.incoming == incoming && outgoing == []
    {
      this.incoming := incoming;
      outgoing := [];
    }

    /** recv returns any non-empty part of what is there, and nothing only at the end of the stream. */
    method Recv(size: nat) returns (chunk: seq<Byte>)
      requires size > 0
      modifies this`incoming
      ensures |chunk| <= size && old(incoming) == chunk + incoming
      ensures |chunk| == 0 <==> old(incoming) == []
    {
      if incoming == [] { return []; }
      var n :| 1 <= n <= size && n <= |incoming|;
      chunk, incoming := incoming[..n], incoming[n..];
    }

    method SendAll(data: seq<Byte>)
      modifies this`outgoing
      ensures outgoing == old(outgoing) + data
    {
      outgoing := outgoing + data;
    }
  }

  /** Exactly the next size bytes, however recv cuts the stream up, or None when it breaks off. */
  method ReceiveData(sock: Socket, size: nat) returns (data: Option<seq<Byte>>)
    modifies sock`incoming
    ensures data.Some? <==> |old(sock.incoming)| >= size
    ensures data.Some? ==> |data.value| == size && old(sock.incoming) == data.value + sock.incoming
  {
    var received: seq<Byte> := [];
    while |received| < size
      invariant |received| <= size && old(sock.incoming) == received + sock.incoming
      decreases size - |received|
    {
      var chunk := sock.Recv(size - |received|);
      if |chunk| == 0 { return None; }
      received := received + chunk;
    }
    data := Some(received);
  }
}
