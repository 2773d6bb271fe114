// The SOCKS5 client of probes/tcp.go (RFC 1928).

module Socks5 {
  import opened Prelude
  import opened GoStrings
  import opened Connections

  // Section 3 of RFC 1928: version 5, one method offered, no authentication.
  const GREETING: seq<byte> := [5, 1, 0]
  const NO_AUTH: seq<byte> := [5, 0]

  function HostBytes(host: string): (bs: seq<byte>)
    ensures |bs| == |host|
  {
    seq(|host|, i requires 0 <= i < |host| => host[i] as int % 256)
  }

  // Section 4: a CONNECT request naming the host.
  function ConnectRequest(host: string, port: int): seq<byte>
    requires |host| <= 255 && 0 <= port <= 65535
  {
    var length: byte := |host|;
    var high: byte, low: byte := port / 256, port % 256;
    [5, 1, 0, 3, length] + HostBytes(host) + [high, low]
  }

  datatype Endpoint = Endpoint(host: string, port: int)

  // The address checks made before anything is sent.
  function ParseAddr(addr: string): (e: Option<Endpoint>)
    ensures e.Some? ==> |e.value.host| <= 255 && 0 <= e.value.port <= 65535
  {
    match SplitHostPort(addr)
    case AddrError(_) => None
    case HostPort(host, portStr) =>
      match Atoi(portStr)
      case None => None
      case Some(port) => if 0 <= port <= 65535 && |host| <= 255 then Some(Endpoint(host, port)) else None
  }

  // Whether a step succeeded and how many bytes it took off the stream.
  datatype Verdict = Verdict(ok: bool, consumed: nat)

  // The bound address after the reply's first four octets; an address type other
  // than 1, 3 and 4 is taken to carry none.
  function ReadAddress(atyp: byte, s: seq<byte>): (v: Verdict)
    ensures v.consumed <= |s|
  {
    if atyp == 3 && s == [] then Verdict(false, 0)
    else
      var n: int := match atyp
                    case 1 => 4 + 2
                    case 4 => 16 + 2
                    case 3 => 1 + (s[0] as int) + 2
                    case _ => 0;
      if |s| < n then Verdict(false, |s|) else Verdict(true, n)
  }

  // The reply: its version and reserved octets are not looked at.
  function ReadReply(s: seq<byte>): (v: Verdict)
    ensures v.consumed <= |s|
  {
    if |s| < 4 then Verdict(false, |s|)
    else if s[1] != 0 then Verdict(false, 4)
    else
      var v := ReadAddress(s[3], s[4..]);
      Verdict(v.ok, 4 + v.consumed)
  }

  datatype Outcome = Outcome(ok: bool, consumed: nat, sent: seq<Write>)

  // The whole exchange as a function of the bytes the server sends, however they
  // are fragmented, of the parsed target address and of how many writes succeed.
  function Exchange(stream: seq<byte>, target: Option<Endpoint>, writes: nat): (o: Outcome)
    requires target.Some? ==> |target.value.host| <= 255 && 0 <= target.value.port <= 65535
    ensures o.consumed <= |stream|
  {
    var first := Write(GREETING, []);
    if target.None? || writes == 0 then Outcome(false, 0, [])
    else if |stream| < 2 then Outcome(false, |stream|, [first])
    else if stream[..2] != NO_AUTH || writes == 1 then Outcome(false, 2, [first])
    else
      var reply := ReadReply(stream[2..]);
      var request := Write(ConnectRequest(target.value.host, target.value.port), stream[..2]);
      Outcome(reply.ok, 2 + reply.consumed, [first, request])
  }

  // Reading m bytes of s and then n more.
  lemma TakeTwice(before: seq<byte>, s: seq<byte>, m: nat, n: nat)
    requires m + n <= |s|
    ensures (before + s[..m]) + s[m..][..n] == before + s[..m + n] && s[m..][n..] == s[m + n..]
  {
    assert s[..m] + s[m..][..n] == s[..m + n];
  }

  lemma TakeAll(s: seq<byte>)
    ensures s[..|s|] == s && s[|s|..] == [] && s[..0] == [] && s[0..] == s
  {
  }

  // Reading n bytes nobody looks at.
  method Skip(conn: Conn, n: nat) returns (ok: bool)
    modifies conn`inbox, conn`received
    ensures var s := old(conn.Stream());
            && ok == (n <= |s|)
            && conn.received == old(conn.received) + s[..if ok then n else |s|]
            && conn.Stream() == s[if ok then n else |s|..]
  {
    hide Flatten;
    ghost var s := conn.Stream();
    var skip;
    skip, ok := conn.ReadFull(n);
    TakeAll(s);
  }

  // The length of the bound address; a domain's is read first.
  method AddressLength(conn: Conn, atyp: byte) returns (addrLen: nat, ok: bool)
    modifies conn`inbox, conn`received
    ensures var s := old(conn.Stream());
            var used := if atyp == 3 && s != [] then 1 else 0;
            && ok == (atyp == 3 ==> s != [])
            && (ok ==> addrLen == match atyp case 1 => 6 case 4 => 18 case 3 => s[0] as int + 2 case _ => 0)
            && conn.received == old(conn.received) + s[..used] && conn.Stream() == s[used..]
  {
    hide Flatten;
    ghost var s := conn.Stream();
    TakeAll(s);
    addrLen, ok := 0, true;
    match atyp {
      case 1 => addrLen := 4 + 2;
      case 4 => addrLen := 16 + 2;
      case 3 =>
        var dLen;
        dLen, ok := conn.ReadFull(1);
        if ok {
          addrLen := dLen[0] as int + 2;
        }
      case _ =>
    }
  }

  // Skipping the bound address.
  method SkipAddress(conn: Conn, atyp: byte) returns (complete: bool)
    modifies conn`inbox, conn`received
    ensures var v := ReadAddress(atyp, old(conn.Stream()));
            && complete == v.ok
            && conn.received == old(conn.received) + old(conn.Stream())[..v.consumed]
            && conn.Stream() == old(conn.Stream())[v.consumed..]
  {
    hide Flatten;
    ghost var s, before := conn.Stream(), conn.received;
    var addrLen;
    addrLen, complete := AddressLength(conn, atyp);
    if complete && addrLen > 0 {
      ghost var used := if atyp == 3 then 1 else 0;
      complete := Skip(conn, addrLen);
      TakeTwice(before, s, used, if complete then addrLen else |s| - used);
    }
  }

  // The reply half of socks5Handshake.
  method ReceiveReply(conn: Conn) returns (accepted: bool)
    modifies conn`inbox, conn`received
    ensures var v := ReadReply(old(conn.Stream()));
            && accepted == v.ok
            && conn.received == old(conn.received) + old(conn.Stream())[..v.consumed]
            && conn.Stream() == old(conn.Stream())[v.consumed..]
  {
    hide Flatten, ReadAddress;
    ghost var s, before := conn.Stream(), conn.received;
    var respBuf, ok := conn.ReadFull(4);
    if !ok || respBuf[1] != 0 {
      TakeAll(s);
      return false;
    }
    accepted := SkipAddress(conn, respBuf[3]);
    TakeTwice(before, s, 4, ReadAddress(s[3], s[4..]).consumed);
  }

  // The greeting half: true when the server chose "no authentication" and the
  // CONNECT request went out.
  method Negotiate(conn: Conn, host: string, port: int) returns (sent: bool)
    requires |host| <= 255 && 0 <= port <= 65535 && conn.received == [] && conn.sent == []
    modifies conn`inbox, conn`received, conn`sent, conn`writesLeft
    ensures var stream := old(conn.Stream());
            var o := Exchange(stream, Some(Endpoint(host, port)), old(conn.writesLeft));
            && conn.sent == o.sent
            && sent == (|o.sent| == 2)
            && conn.received == stream[..if sent then 2 else o.consumed]
            && conn.Stream() == stream[if sent then 2 else o.consumed..]
  {
    hide Flatten, HostBytes;
    ghost var stream := conn.Stream();
    assert stream[..0] == [] && stream[0..] == stream && stream[..|stream|] == stream;
    var wrote := conn.Send(GREETING);
    if !wrote {
      return false;
    }
    var buf, ok := conn.ReadFull(2);
    if !ok || buf[0] != 5 || buf[1] != 0 {
      return false;
    }
    assert stream[..2] == buf == NO_AUTH && conn.received == buf;
    sent := conn.Send(ConnectRequest(host, port));
    assert sent ==> conn.sent == [Write(GREETING, []), Write(ConnectRequest(host, port), stream[..2])];
  }

  // socks5Handshake: the tunnel on success, otherwise the connection is closed.
  method Handshake(conn: Conn, targetAddr: string) returns (tunnel: Conn?, err: Option<string>)
    requires conn.received == [] && conn.sent == []
    modifies conn
    ensures var o := Exchange(old(conn.Stream()), ParseAddr(targetAddr), old(conn.writesLeft));
            && (tunnel == if o.ok then conn else null)
            && conn.sent == o.sent
            && conn.received == old(conn.Stream())[..o.consumed]
            && conn.Stream() == old(conn.Stream())[o.consumed..]
    ensures tunnel != null <==> err.None?
    ensures conn.open == (tunnel != null && old(conn.open))
    ensures err.Some? ==> err.value != ""
  {
    var target := ParseAddr(targetAddr);
    tunnel, err := Connect(conn, target);
  }

  method Connect(conn: Conn, target: Option<Endpoint>) returns (tunnel: Conn?, err: Option<string>)
    requires conn.received == [] && conn.sent == []
    requires target.Some? ==> |target.value.host| <= 255 && 0 <= target.value.port <= 65535
    modifies conn
    ensures var o := Exchange(old(conn.Stream()), target, old(conn.writesLeft));
            && (tunnel == if o.ok then conn else null)
            && conn.sent == o.sent
            && conn.received == old(conn.Stream())[..o.consumed]
            && conn.Stream() == old(conn.Stream())[o.consumed..]
    ensures tunnel != null <==> err.None?
    ensures conn.open == (tunnel != null && old(conn.open))
    ensures err.Some? ==> err.value != ""
  {
    hide Flatten;
    var failure := "invalid target address";
    if target.Some? {
      var negotiated := Negotiate(conn, target.value.host, target.value.port);
      failure := "SOCKS5 negotiation failed";
      if negotiated {
        var accepted := ReceiveReply(conn);
        if accepted {
          return conn, None;
        }
        failure := "SOCKS5 connection rejected by proxy";
      }
    }
    var text := CloseConnWithError(conn, failure);
    return null, Some(text);
  }

  // ---- The server's side ----

  datatype Bind = IPv4(octets: seq<byte>) | Domain(name: seq<byte>) | IPv6(octets: seq<byte>)

  predicate ValidBind(b: Bind) {
    match b
    case IPv4(octets) => |octets| == 4
    case Domain(name) => |name| <= 255
    case IPv6(octets) => |octets| == 16
  }

  // Section 6 of RFC 1928: a reply with field REP = succeeded.
  function Reply(ver: byte, rsv: byte, bind: Bind, port: seq<byte>): seq<byte>
    requires ValidBind(bind)
  {
    match bind
    case IPv4(octets) => [ver, 0, rsv, 1] + octets + port
    case Domain(name) => var length: byte := |name|; [ver, 0, rsv, 3, length] + name + port
    case IPv6(octets) => [ver, 0, rsv, 4] + octets + port
  }

  datatype Decoded = Decoded(host: seq<byte>, port: int, rest: seq<byte>)

  // Reading a CONNECT request that names a host.
  function DecodeConnect(s: seq<byte>): Option<Decoded> {
    if |s| < 5 || s[..4] != [5, 1, 0, 3] || |s| < 7 + (s[4] as int) then None
    else
      var n: int := s[4];
      Some(Decoded(s[5..5 + n], 256 * (s[5 + n] as int) + s[6 + n] as int, s[7 + n..]))
  }

  // ---- Results ----

  lemma ReplyConsumed(ver: byte, rsv: byte, bind: Bind, port: seq<byte>, tunnel: seq<byte>)
    requires ValidBind(bind) && |port| == 2
    ensures ReadReply(Reply(ver, rsv, bind, port) + tunnel)
         == Verdict(true, |Reply(ver, rsv, bind, port)|)
  {
    var reply := Reply(ver, rsv, bind, port);
    assert (reply + tunnel)[4..] == reply[4..] + tunnel;
  }

  // An endpoint that can be asked for.
  predicate Askable(e: Endpoint) {
    |e.host| <= 255 && 0 <= e.port <= 65535
  }

  // Against any accepting server the client takes exactly the two replies off
  // the stream and leaves the tunnel's bytes untouched.
  lemma StreamExactness(ver: byte, rsv: byte, bind: Bind, port: seq<byte>, tunnel: seq<byte>,
                        e: Endpoint, writes: nat)
    requires ValidBind(bind) && |port| == 2 && Askable(e) && writes >= 2
    ensures var stream := NO_AUTH + Reply(ver, rsv, bind, port) + tunnel;
            var o := Exchange(stream, Some(e), writes);
            o.ok && stream[o.consumed..] == tunnel
  {
    var reply := Reply(ver, rsv, bind, port);
    var stream := NO_AUTH + reply + tunnel;
    ReplyConsumed(ver, rsv, bind, port, tunnel);
    assert stream[..2] == NO_AUTH;
    assert stream[2..] == reply + tunnel;
    assert stream[2 + |reply|..] == tunnel;
  }

  ghost predicate SuccessReply(s: seq<byte>, tunnel: seq<byte>) {
    exists ver, rsv, bind, port ::
      ValidBind(bind) && |port| == 2 && s == Reply(ver, rsv, bind, port) + tunnel
  }

  lemma ReplyAcceptedOnlyThen(s: seq<byte>)
    requires ReadReply(s).ok
    ensures |s| >= 4
    ensures var tunnel := s[ReadReply(s).consumed..];
            if s[3] in {1, 3, 4} then SuccessReply(s, tunnel) else tunnel == s[4..]
  {
    var end := ReadReply(s).consumed;
    if s[3] in {1, 3, 4} {
      var port := s[end - 2..end];
      var bind := match s[3] case 1 => IPv4(s[4..8]) case 3 => Domain(s[5..end - 2]) case _ => IPv6(s[4..20]);
      hide Reply, ValidBind;
      ReplyPieces(s, bind, port, end);
      assert s[..end] + s[end..] == s;
    }
  }

  lemma ReplyPieces(s: seq<byte>, bind: Bind, port: seq<byte>, end: int)
    requires 6 <= end <= |s| && s[1] == 0 && port == s[end - 2..end]
    requires match bind
             case IPv4(octets) => end == 10 && s[3] == 1 && octets == s[4..8]
             case Domain(name) => s[3] == 3 && end == 7 + (s[4] as int) && name == s[5..end - 2]
             case IPv6(octets) => end == 22 && s[3] == 4 && octets == s[4..20]
    ensures ValidBind(bind) && s[..end] == Reply(s[0], s[2], bind, port)
  {
    assert s[..4] == [s[0], 0, s[2], s[3]];
    assert s[..end] == s[..4] + s[4..end - 2] + port;
    if bind.Domain? {
      assert s[4..end - 2] == [s[4]] + s[5..end - 2];
    }
  }

  // Conversely, unless the address type is unknown, success means the server
  // sent an accepting greeting and a complete success reply, and nothing else was read.
  lemma AcceptedOnlyThen(stream: seq<byte>, e: Endpoint, writes: nat)
    requires Askable(e) && Exchange(stream, Some(e), writes).ok
    ensures writes >= 2 && |stream| >= 6 && stream[..2] == NO_AUTH
    ensures var tunnel := stream[Exchange(stream, Some(e), writes).consumed..];
            if stream[5] in {1, 3, 4} then SuccessReply(stream[2..], tunnel) else tunnel == stream[6..]
  {
    ReplyAcceptedOnlyThen(stream[2..]);
    var used := ReadReply(stream[2..]).consumed;
    assert stream[2..][used..] == stream[2 + used..];
  }

  // A server that lets the client through: no authentication, then a success reply,
  // complete unless its address type is none of the three known ones.
  ghost predicate Accepts(stream: seq<byte>) {
    && |stream| >= 6 && stream[..2] == NO_AUTH && stream[3] == 0
    && (stream[5] in {1, 3, 4} ==> exists tunnel :: SuccessReply(stream[2..], tunnel))
  }

  lemma SuccessIsRead(s: seq<byte>, tunnel: seq<byte>)
    requires SuccessReply(s, tunnel)
    ensures ReadReply(s).ok
  {
    hide ReadReply;
    var ver, rsv, bind, port :| ValidBind(bind) && |port| == 2 && s == Reply(ver, rsv, bind, port) + tunnel;
    ReplyConsumed(ver, rsv, bind, port, tunnel);
  }

  // The exchange succeeds with exactly these servers, given two writes and a target
  // that can be asked for.
  lemma AcceptedExactly(stream: seq<byte>, target: Option<Endpoint>, writes: nat)
    requires target.Some? ==> Askable(target.value)
    ensures Exchange(stream, target, writes).ok <==> target.Some? && writes >= 2 && Accepts(stream)
  {
    if target.Some? && Exchange(stream, target, writes).ok {
      AcceptedOnlyThen(stream, target.value, writes);
    }
    if target.Some? && writes >= 2 && Accepts(stream) && stream[5] in {1, 3, 4} {
      var tunnel :| SuccessReply(stream[2..], tunnel);
      SuccessIsRead(stream[2..], tunnel);
    }
  }

  // On every stream the CONNECT request goes out only after 05 00 has come in,
  // and nothing goes out besides the greeting and the request.
  lemma NeverEarly(stream: seq<byte>, e: Endpoint, writes: nat)
    requires Askable(e)
    ensures var sent := Exchange(stream, Some(e), writes).sent;
            && |sent| <= 2
            && (|sent| > 0 ==> sent[0] == Write(GREETING, []))
            && (|sent| > 1 ==> sent[1].after == NO_AUTH
                               && DecodeConnect(sent[1].bytes) == Some(Decoded(HostBytes(e.host), e.port, [])))
            && (Exchange(stream, Some(e), writes).ok ==> |sent| == 2)
  {
    RequestDecodes(e.host, e.port, []);
    assert ConnectRequest(e.host, e.port) + [] == ConnectRequest(e.host, e.port);
  }

  lemma RequestDecodes(host: string, port: int, rest: seq<byte>)
    requires |host| <= 255 && 0 <= port <= 65535
    ensures |ConnectRequest(host, port)| == 7 + |host|
    ensures DecodeConnect(ConnectRequest(host, port) + rest) == Some(Decoded(HostBytes(host), port, rest))
  {
    var s := ConnectRequest(host, port) + rest;
    var n := |host|;
    assert s[..4] == [5, 1, 0, 3] && s[4] == n;
    assert s[5..5 + n] == HostBytes(host);
    assert s[7 + n..] == rest;
  }

  function HostText(bs: seq<byte>): string {
    seq(|bs|, i requires 0 <= i < |bs| => bs[i] as char)
  }

  lemma ItoaPlain(n: int)
    ensures BracketFree(Itoa(n)) && ':' !in Itoa(n)
  {
    forall ch | ch in Itoa(n) ensures ch == '-' || IsDigit(ch) { ItoaChars(n, ch); }
  }

  lemma JoinedAddress(host: string, port: int)
    requires BracketFree(host) && MIN_INT64 <= port <= MAX_INT64
    ensures ParseAddr(JoinHostPort(host, Itoa(port)))
         == if |host| <= 255 && 0 <= port <= 65535 then Some(Endpoint(host, port)) else None
  {
    ItoaPlain(port);
    SplitJoin(host, Itoa(port));
    AtoiItoa(port);
    ParseParts(JoinHostPort(host, Itoa(port)), host, Itoa(port), port);
  }

  lemma ParseParts(addr: string, host: string, portStr: string, port: int)
    requires SplitHostPort(addr) == HostPort(host, portStr) && Atoi(portStr) == Some(port)
    ensures ParseAddr(addr) == if |host| <= 255 && 0 <= port <= 65535 then Some(Endpoint(host, port)) else None
  {
  }

  predicate IsByteString(s: string) {
    forall i :: 0 <= i < |s| ==> s[i] as int < 256
  }

  lemma HostBytesRoundTrip(host: string)
    requires IsByteString(host)
    ensures HostText(HostBytes(host)) == host
  {
  }

  // From the dialer's host and port to what the server decodes: the same host,
  // colons of an IPv6 literal included, the same port, 7 + len(host) bytes.
  lemma AddressFidelity(host: string, port: int, rest: seq<byte>)
    requires BracketFree(host) && |host| <= 255 && 0 <= port <= 65535
    requires IsByteString(host)
    ensures ParseAddr(JoinHostPort(host, Itoa(port))) == Some(Endpoint(host, port))
    ensures DecodeConnect(ConnectRequest(host, port) + rest) == Some(Decoded(HostBytes(host), port, rest))
    ensures HostText(HostBytes(host)) == host && |ConnectRequest(host, port)| == 7 + |host|
  {
    JoinedAddress(host, port);
    RequestDecodes(host, port, rest);
    HostBytesRoundTrip(host);
  }

  // A longer host, or a port outside 16 bits, is refused before anything is sent.
  lemma AddressRefused(host: string, port: int, stream: seq<byte>, writes: nat)
    requires BracketFree(host) && MIN_INT64 <= port <= MAX_INT64 && (|host| > 255 || !(0 <= port <= 65535))
    ensures Exchange(stream, ParseAddr(JoinHostPort(host, Itoa(port))), writes) == Outcome(false, 0, [])
  {
    JoinedAddress(host, port);
  }
}
