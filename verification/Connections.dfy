// A TCP connection as the probes see it: bytes arrive in fragments of the
// network's choosing, writes may start to fail, and the socket is open until closed.

module Connections {
  import opened Prelude
  import opened SctList

  datatype Cert = Cert(extensions: seq<Extension>)

  // What a completed handshake reveals.
  datatype ConnectionState = ConnectionState(
    timestamps: seq<seq<byte>>, chain: seq<Cert>, resumed: bool, cipher: string)

  // How an HTTP CONNECT exchange ends; everything but Tunnel is an error.
  datatype ConnectOutcome = RequestFailed | WriteFailed | ReadFailed | BodyCloseFailed | Rejected | Tunnel

  // What the far side of one connection does: the fragments it sends, how many
  // writes succeed, how CONNECT, the TLS handshake and the close turn out.
  datatype Behaviour = Behaviour(
    inbox: seq<seq<byte>>, writes: nat, connect: ConnectOutcome,
    handshakeErr: Option<string>, state: ConnectionState, closeErr: Option<string>)

  // What was sent, and everything that had been received by then.
  datatype Write = Write(bytes: seq<byte>, after: seq<byte>)

  function Flatten(fragments: seq<seq<byte>>): seq<byte> {
    if fragments == [] then [] else fragments[0] + Flatten(fragments[1..])
  }

  const CLOSED := "use of closed network connection"

  class Conn {
    const born: nat             // which connection attempt it came from
    const script: Behaviour
    var inbox: seq<seq<byte>>   // fragments yet to arrive; after the last one, reads fail
    var received: seq<byte>
    var sent: seq<Write>
    var writesLeft: nat         // how many more writes succeed
    var open: bool

    constructor (born: nat, script: Behaviour)
      ensures this.born == born && this.script == script
      ensures inbox == script.inbox && writesLeft == script.writes
      ensures received == [] && sent == [] && open
    {
      this.born, this.script := born, script;
      inbox, writesLeft := script.inbox, script.writes;
      received, sent, open := [], [], true;
    }

    function Stream(): seq<byte>
      reads this
    {
      Flatten(inbox)
    }

    // One Read call: at most n bytes, never across a fragment boundary.
    method Read(n: nat) returns (bs: seq<byte>, eof: bool)
      modifies this`inbox, this`received
      ensures eof == (old(inbox) == [])
      ensures |bs| <= n && old(Stream()) == bs + Stream() && received == old(received) + bs
      ensures eof ==> bs == [] && Stream() == []
      ensures !eof && n > 0 ==> |Stream()| + |inbox| < |old(Stream())| + |old(inbox)|
    {
      if inbox == [] {
        return [], true;
      }
      var head := inbox[0];
      if |head| <= n {
        bs, inbox := head, inbox[1..];
      } else {
        bs, inbox := head[..n], [head[n..]] + inbox[1..];
        assert head == bs + head[n..];
      }
      received := received + bs;
      eof := false;
    }

    // io.ReadFull: exactly n bytes, or failure once the stream has run dry.
    method ReadFull(n: nat) returns (bs: seq<byte>, ok: bool)
      modifies this`inbox, this`received
      ensures ok == (n <= |old(Stream())|)
      ensures bs == if ok then old(Stream())[..n] else old(Stream())
      ensures Stream() == if ok then old(Stream())[n..] else []
      ensures received == old(received) + bs
    {
      bs, ok := [], true;
      while |bs| < n && ok
        invariant |bs| <= n
        invariant old(Stream()) == bs + Stream() && received == old(received) + bs
        invariant !ok ==> |bs| < n && Stream() == []
        decreases ok, |Stream()| + |inbox|
      {
        var more, eof := Read(n - |bs|);
        bs, ok := bs + more, !eof;
      }
    }

    method Send(bytes: seq<byte>) returns (ok: bool)
      modifies this`sent, this`writesLeft
      ensures ok == (old(writesLeft) > 0)
      ensures ok ==> writesLeft == old(writesLeft) - 1 && sent == old(sent) + [Write(bytes, received)]
      ensures !ok ==> writesLeft == old(writesLeft) && sent == old(sent)
    {
      ok := writesLeft > 0;
      if ok {
        writesLeft, sent := writesLeft - 1, sent + [Write(bytes, received)];
      }
    }

    // Closing releases the socket even when it reports an error; a second close
    // always reports one.
    method Close() returns (closeErr: Option<string>)
      modifies this`open
      ensures !open
      ensures closeErr == if old(open) then script.closeErr else Some(CLOSED)
    {
      closeErr := if open then script.closeErr else Some(CLOSED);
      open := false;
    }
  }

  // closeConnWithError: the close error, if any, is appended to the original.
  method CloseConnWithError(conn: Conn, origErr: string) returns (err: string)
    modifies conn`open
    ensures !conn.open && origErr <= err
    ensures err == if old(conn.open) && conn.script.closeErr.None? then origErr
                   else origErr + " (socket close error: "
                        + (if old(conn.open) then conn.script.closeErr.value else CLOSED) + ")"
  {
    var closeErr := conn.Close();
    match closeErr {
      case Some(reason) => err := origErr + " (socket close error: " + reason + ")";
      case None => err := origErr;
    }
  }
}
