// Dialling (probes/tcp.go) in an environment that fixes how every lookup and every
// connection attempt turns out, with a ledger of the sockets opened.

module Network {
  import opened Prelude
  import opened GoStrings
  import opened Connections
  import Socks5

  const CTX_ERR := "context canceled"

  datatype Proxy = Direct | HttpConnect | Socks

  datatype DialOutcome = Refused(reason: string) | Connected(script: Behaviour)

  // The n-th look at the context, the n-th lookup and the n-th connection attempt; the
  // error of the n-th HTTP probe, empty for none, and the answer to the n-th QUIC probe.
  datatype Env = Env(
    done: nat -> bool, lookup: nat -> Option<string>, dial: nat -> DialOutcome,
    http: nat -> string, quic: nat -> bool)

  // None of these looks at the context found it cancelled.
  ghost predicate Undone(env: Env, from: nat, to: int) {
    forall l: nat :: from <= l < to ==> !env.done(l)
  }

  lemma UndoneNone(env: Env, from: nat)
    ensures Undone(env, from, from)
  {
  }

  lemma UndoneNext(env: Env, from: nat, to: nat)
    requires Undone(env, from, to) && !env.done(to)
    ensures Undone(env, from, to + 1)
  {
  }

  // A context that is never cancelled.
  ghost predicate Quiet(env: Env) {
    forall i: nat :: !env.done(i)
  }

  // ---- What an undisturbed call finds ----

  // A way to a target: where, how and how often to try.
  datatype Route = Route(env: Env, addr: string, retries: int, proxy: Proxy)

  // How many lookups and attempts there have been.
  datatype Cursor = Cursor(lookups: nat, dials: nat)

  // Whether an attempt yields a connection, the proxy's consent included.
  predicate Succeeds(attempt: DialOutcome, proxy: Proxy, targetAddr: string) {
    match attempt
    case Refused(_) => false
    case Connected(script) =>
      match proxy
      case Direct => true
      case HttpConnect => script.connect.Tunnel?
      case Socks => Socks5.Exchange(Flatten(script.inbox), Socks5.ParseAddr(targetAddr), script.writes).ok
  }

  predicate Works(r: Route, k: nat) {
    Succeeds(r.env.dial(k), r.proxy, r.addr)
  }

  lemma WorksIs(r: Route)
    ensures forall k: nat :: Works(r, k) == Succeeds(r.env.dial(k), r.proxy, r.addr)
  {
  }

  // In terms of the far side: it answers; an HTTP proxy grants the tunnel; a SOCKS
  // proxy accepts, with the writes getting through and an address that can be named.
  lemma WorksWhen(r: Route, k: nat)
    ensures Works(r, k) <==>
              match r.env.dial(k)
              case Refused(_) => false
              case Connected(script) =>
                && (r.proxy.HttpConnect? ==> script.connect == Tunnel)
                && (r.proxy.Socks? ==>
                      && Socks5.ParseAddr(r.addr).Some? && script.writes >= 2
                      && Socks5.Accepts(Flatten(script.inbox)))
  {
    hide Socks5.Exchange, Socks5.ParseAddr, Socks5.Accepts, Flatten;
    if r.env.dial(k).Connected? {
      var script := r.env.dial(k).script;
      Socks5.AcceptedExactly(Flatten(script.inbox), Socks5.ParseAddr(r.addr), script.writes);
    }
  }

  // The first of the attempts d, ..., d + n - 1 that succeeds.
  function FirstSuccess(r: Route, d: nat, n: nat): (k: Option<nat>)
    ensures k.Some? ==> d <= k.value < d + n && Works(r, k.value)
    ensures forall j :: d <= j < (if k.Some? then k.value else d + n) ==> !Works(r, j)
    decreases n
  {
    if n == 0 then None else if Works(r, d) then Some(d) else FirstSuccess(r, d + 1, n - 1)
  }

  lemma FirstSuccessIs(r: Route, d: nat, n: nat, k: Option<nat>)
    requires k.Some? ==> d <= k.value < d + n && Works(r, k.value)
    requires forall j :: d <= j < (if k.Some? then k.value else d + n) ==> !Works(r, j)
    ensures FirstSuccess(r, d, n) == k
  {
    hide Works;
  }

  // Where the next call begins when one has connected by attempt k.
  function After(at: Cursor, k: nat): Cursor {
    Cursor(at.lookups + 1, k + 1)
  }

  // The attempt whose connection a call to TCP returns, and where it leaves off.
  datatype Reached = Reached(conn: Option<nat>, next: Cursor)

  function Reach(r: Route, at: Cursor): Reached {
    var tries := if r.retries < 0 then 0 else r.retries + 1;
    if r.proxy.Direct? && r.env.lookup(at.lookups).Some? then Reached(None, Cursor(at.lookups + 1, at.dials))
    else
      var k := FirstSuccess(r, at.dials, tries);
      Reached(k, Cursor(at.lookups + 1, if k.Some? then k.value + 1 else at.dials + tries))
  }

  // k is the first of the retries + 1 attempts from `from` on that works.
  ghost predicate FirstWorking(r: Route, from: nat, k: nat) {
    from <= k <= from + r.retries && Works(r, k) && forall j: nat :: from <= j < k ==> !Works(r, j)
  }

  // A direct call whose lookup fails connects nowhere; through a proxy the lookup
  // does not matter.
  ghost predicate Connects(r: Route, at: Cursor, k: nat) {
    !(r.proxy.Direct? && r.env.lookup(at.lookups).Some?) && FirstWorking(r, at.dials, k)
  }

  lemma ReachConnects(r: Route, at: Cursor)
    ensures var reached := Reach(r, at);
            && (forall k: nat :: reached.conn == Some(k) <==> Connects(r, at, k))
            && reached.next.lookups == at.lookups + 1
            && reached.next.dials ==
                 (if reached.conn.Some? then reached.conn.value + 1
                  else if r.retries < 0 || (r.proxy.Direct? && r.env.lookup(at.lookups).Some?) then at.dials
                  else at.dials + r.retries + 1)
  {
    hide Works;
    forall k: nat ensures Reach(r, at).conn == Some(k) <==> Connects(r, at, k) {
      if Connects(r, at, k) {
        FirstSuccessIs(r, at.dials, r.retries + 1, Some(k));
      }
    }
  }

  // Every lookup and every attempt succeeds.
  ghost predicate Healthy(r: Route) {
    && r.retries >= 0
    && (forall i: nat :: r.env.lookup(i).None?)
    && (forall k: nat :: Works(r, k))
  }

  lemma ReachHealthy(r: Route, at: Cursor)
    requires Healthy(r)
    ensures Reach(r, at) == Reached(Some(at.dials), Cursor(at.lookups + 1, at.dials + 1))
  {
    assert r.env.lookup(at.lookups).None? && Works(r, at.dials);
  }

  // ---- What was asked for ----

  // The exchange on a SOCKS tunnel: the greeting, then, once "no authentication" was
  // chosen, a request for the given address.
  ghost predicate AskedFor(sent: seq<Write>, targetAddr: string) {
    && Socks5.ParseAddr(targetAddr).Some?
    && var e := Socks5.ParseAddr(targetAddr).value;
       sent == [Write(Socks5.GREETING, []), Write(Socks5.ConnectRequest(e.host, e.port), Socks5.NO_AUTH)]
  }

  // The proxy reads off the tunnel the very host and port that were dialled.
  lemma TunnelFidelity(sent: seq<Write>, host: string, port: int)
    requires AskedFor(sent, JoinHostPort(host, Itoa(port)))
    requires BracketFree(host) && |host| <= 255 && 0 <= port <= 65535 && Socks5.IsByteString(host)
    ensures sent[1].after == Socks5.NO_AUTH
    ensures exists d :: Socks5.DecodeConnect(sent[1].bytes) == Some(d)
                     && Socks5.HostText(d.host) == host && d.port == port && d.rest == []
  {
    hide Socks5.ParseAddr, Socks5.ConnectRequest, Socks5.DecodeConnect, Socks5.HostBytes, Socks5.HostText,
         JoinHostPort, Itoa;
    Socks5.AddressFidelity(host, port, []);
    assert Socks5.ConnectRequest(host, port) + [] == Socks5.ConnectRequest(host, port);
  }

  // The HTTP CONNECT exchange.
  method RequestTunnel(proxyConn: Conn) returns (conn: Conn?, err: Option<string>)
    modifies proxyConn`open
    ensures conn == if proxyConn.script.connect.Tunnel? then proxyConn else null
    ensures conn != null <==> err.None?
    ensures proxyConn.open == (conn != null && old(proxyConn.open))
  {
    var reason := "";
    match proxyConn.script.connect {
      case RequestFailed => reason := "failed to create CONNECT request";
      case WriteFailed => reason := "failed to write CONNECT request to proxy";
      case ReadFailed => reason := "failed to read CONNECT response from proxy";
      case BodyCloseFailed => reason := "failed to close CONNECT response body";
      case Rejected => reason := "proxy CONNECT rejected";
      case Tunnel => return proxyConn, None;
    }
    var text := CloseConnWithError(proxyConn, reason);
    return null, Some(text);
  }

  // ---- The network of one run ----

  function Just(k: Option<nat>): set<nat> {
    if k.Some? then {k.value} else {}
  }

  function Born(conn: Conn?): set<nat> {
    if conn == null then {} else {conn.born}
  }

  ghost predicate Extends(before: map<nat, Conn>, now: map<nat, Conn>) {
    forall k :: k in before ==> k in now && now[k] == before[k]
  }

  lemma ExtendsSelf(sockets: map<nat, Conn>)
    ensures Extends(sockets, sockets)
  {
  }

  lemma ExtendsTwice(first: map<nat, Conn>, second: map<nat, Conn>, third: map<nat, Conn>)
    requires Extends(first, second) && Extends(second, third)
    ensures Extends(first, third)
  {
  }

  class Net {
    const env: Env
    var lookups: nat
    var dials: nat                       // TCP-level connection attempts
    var looks: nat                       // looks at the context
    var cancelled: bool
    var requests: nat                    // HTTP probes
    var datagrams: nat                   // QUIC probes
    ghost var sleeps: nat                // retry delays begun
    ghost var sockets: map<nat, Conn>    // by the attempt that opened them
    ghost var failed: set<nat>           // those whose TLS handshake failed

    constructor (env: Env)
      ensures this.env == env && Valid() && !cancelled && At() == Cursor(0, 0)
      ensures sockets == map[] && failed == {}
    {
      this.env := env;
      lookups, dials, looks, cancelled, requests, datagrams := 0, 0, 0, false, 0, 0;
      sleeps, sockets, failed := 0, map[], {};
    }

    ghost predicate Valid()
      reads `dials, `sockets, `failed
    {
      && (forall k: nat :: k in sockets <==> k < dials && env.dial(k).Connected?)
      && (forall k :: k in sockets ==> sockets[k].born == k && sockets[k].script == env.dial(k).script)
      && failed <= sockets.Keys
    }

    function At(): Cursor
      reads `lookups, `dials
    {
      Cursor(lookups, dials)
    }

    // The sockets now open.
    ghost function Open(): set<nat>
      reads `sockets, sockets.Values
      ensures Open() <= sockets.Keys
    {
      set k | k in sockets && sockets[k].open
    }

    lemma Unborn()
      requires Valid()
      ensures forall k :: k >= dials ==> k !in Open()
    {
    }

    // The socket of its own attempt.
    ghost predicate Owns(conn: Conn)
      reads `sockets
    {
      conn.born in sockets && sockets[conn.born] == conn
    }

    lemma Scripted(conn: Conn)
      requires Valid() && Owns(conn)
      ensures env.dial(conn.born) == Connected(conn.script)
    {
    }

    lemma OpenOne(conn: Conn)
      requires Owns(conn) && conn.open
      ensures conn.born in Open()
    {
    }

    lemma StillOwns(before: map<nat, Conn>, conn: Conn)
      requires conn.born in before && before[conn.born] == conn && Extends(before, sockets)
      ensures Owns(conn)
    {
    }

    // The context may be cancelled at any moment and stays cancelled.
    method ContextDone() returns (done: bool)
      modifies this`cancelled, this`looks
      ensures done == cancelled == (old(cancelled) || env.done(old(looks)))
      ensures looks == old(looks) + 1
      ensures Quiet(env) && !old(cancelled) ==> !cancelled
    {
      cancelled := cancelled || env.done(looks);
      looks := looks + 1;
      done := cancelled;
    }

    // Closing one of the sockets; a second close always reports an error.
    method Close(conn: Conn) returns (closeErr: Option<string>)
      requires Valid() && Owns(conn)
      modifies conn`open
      ensures !conn.open && Open() == old(Open()) - {conn.born}
      ensures closeErr == if old(conn.open) then conn.script.closeErr else Some(CLOSED)
    {
      closeErr := conn.Close();
    }

    method Http() returns (err: string)
      modifies this`requests
      ensures err == env.http(old(requests)) && requests == old(requests) + 1
    {
      err := env.http(requests);
      requests := requests + 1;
    }

    method Quic() returns (reachable: bool)
      modifies this`datagrams
      ensures reachable == env.quic(old(datagrams)) && datagrams == old(datagrams) + 1
    {
      reachable := env.quic(datagrams);
      datagrams := datagrams + 1;
    }

    method Lookup() returns (err: Option<string>)
      requires Valid()
      modifies this`lookups
      ensures Valid() && Extends(old(sockets), sockets)
      ensures err == env.lookup(old(lookups)) && lookups == old(lookups) + 1
    {
      err := env.lookup(lookups);
      lookups := lookups + 1;
    }

    method Dial() returns (conn: Conn?, err: Option<string>)
      requires Valid()
      modifies this`dials, this`sockets
      ensures Valid() && Extends(old(sockets), sockets) && dials == old(dials) + 1
      ensures conn != null <==> err.None?
      ensures conn != null <==> env.dial(old(dials)).Connected?
      ensures Open() == old(Open()) + Born(conn)
      ensures conn != null ==> fresh(conn) && conn.born == old(dials) && Owns(conn) && conn.open
                               && conn.received == [] && conn.sent == []
                               && conn.inbox == conn.script.inbox && conn.writesLeft == conn.script.writes
    {
      var attempt := dials;
      dials := dials + 1;
      match env.dial(attempt) {
        case Refused(reason) =>
          return null, Some(reason);
        case Connected(script) =>
          conn := new Conn(attempt, script);
          err := None;
          sockets := sockets[attempt := conn];
      }
    }

    // DialViaProxy: one open tunnel, or an error with nothing left open.
    method DialViaProxy(socks: bool, targetAddr: string) returns (conn: Conn?, err: Option<string>)
      requires Valid()
      modifies this`dials, this`sockets
      ensures Valid() && Extends(old(sockets), sockets) && dials == old(dials) + 1
      ensures conn != null <==> err.None?
      ensures conn != null <==> Succeeds(env.dial(old(dials)), if socks then Socks else HttpConnect, targetAddr)
      ensures conn != null <==>
                && env.dial(old(dials)).Connected?
                && var script := env.dial(old(dials)).script;
                   if !socks then script.connect.Tunnel?
                   else Socks5.Exchange(Flatten(script.inbox), Socks5.ParseAddr(targetAddr), script.writes).ok
      ensures conn != null ==> fresh(conn) && conn.born == old(dials) && Owns(conn) && conn.open
      ensures Open() == old(Open()) + Born(conn)
      ensures socks && conn != null ==> AskedFor(conn.sent, targetAddr)
    {
      hide Socks5.ParseAddr, Flatten;
      var proxyConn, dialErr := Dial();
      if proxyConn == null {
        return null, Some("proxy connection failed: " + dialErr.value);
      }
      if socks {
        conn, err := Socks5.Handshake(proxyConn, targetAddr);
        return;
      }
      conn, err := RequestTunnel(proxyConn);
    }

    // One attempt, direct or through the proxy.
    method Attempt(proxy: Proxy, targetAddr: string) returns (conn: Conn?, err: Option<string>)
      requires Valid()
      modifies this`dials, this`sockets
      ensures Valid() && Extends(old(sockets), sockets) && dials == old(dials) + 1
      ensures conn != null <==> err.None?
      ensures conn != null <==> Succeeds(env.dial(old(dials)), proxy, targetAddr)
      ensures conn != null ==> fresh(conn) && conn.born == old(dials) && Owns(conn) && conn.open
      ensures Open() == old(Open()) + Born(conn)
      ensures proxy.Socks? && conn != null ==> AskedFor(conn.sent, targetAddr)
    {
      hide AskedFor;
      if proxy.Direct? {
        conn, err := Dial();
      } else {
        conn, err := DialViaProxy(proxy.Socks?, targetAddr);
      }
    }

    // The delay ends with the timer or with the context; when both are ready either
    // may be seen.
    method Delay(ghost from: nat) returns (interrupted: bool)
      modifies `looks, `cancelled, `sleeps
      ensures sleeps == old(sleeps) + 1 && looks == old(looks) + 1
      ensures cancelled == (old(cancelled) || env.done(old(looks)))
      ensures interrupted ==> cancelled
      ensures Quiet(env) && !old(cancelled) ==> !cancelled
      ensures old(Undone(env, from, looks)) && !cancelled ==> Undone(env, from, looks)
    {
      sleeps := sleeps + 1;
      var done := ContextDone();
      var timerFirst: bool := *;
      interrupted := done && !timerFirst;
    }

    // The retry loop of TCP.
    method Retry(targetAddr: string, retries: int, proxy: Proxy, lookupErr: Option<string>)
      returns (conn: Conn?, err: Option<string>, interrupted: bool)
      requires Valid()
      modifies `dials, `looks, `cancelled, `sleeps, `sockets
      ensures Valid() && Extends(old(sockets), sockets) && (old(cancelled) ==> cancelled)
      ensures Quiet(env) && !old(cancelled) ==> !cancelled
      ensures interrupted ==> cancelled && conn == null && err == Some(CTX_ERR)
      ensures retries < 0 ==> conn == null && err == lookupErr && !interrupted && dials == old(dials)
      ensures retries >= 0 ==> (conn != null <==> err.None?) && dials <= old(dials) + retries + 1
      ensures conn != null ==> fresh(conn) && Owns(conn) && conn.open
                               && dials == conn.born + 1 > old(dials)
                               && Succeeds(env.dial(conn.born), proxy, targetAddr)
      ensures forall k :: old(dials) <= k < dials && (conn == null || k < conn.born) ==>
                !Succeeds(env.dial(k), proxy, targetAddr)
      ensures Open() == old(Open()) + Born(conn)
      ensures old(dials) <= dials && old(sleeps) <= sleeps
      ensures sleeps == old(sleeps) || sleeps <= old(sleeps) + retries
      ensures dials > old(dials) ==>
                !old(cancelled) && Undone(env, old(looks), old(looks) + 2 * (dials - old(dials)) - 1)
      ensures conn != null ==> sleeps == old(sleeps) + dials - old(dials) - 1
      ensures retries >= 0 && err.Some? && !interrupted ==>
                dials == old(dials) + retries + 1 && sleeps == old(sleeps) + retries
      ensures proxy.Socks? && conn != null ==> AskedFor(conn.sent, targetAddr)
    {
      hide AskedFor, Succeeds, Open, Valid, Extends, Undone, Quiet;
      conn, err, interrupted := null, lookupErr, false;
      ExtendsSelf(sockets);
      UndoneNone(env, looks);
      var i := 0;
      while i <= retries
        invariant 0 <= i && (retries >= 0 ==> i <= retries + 1) && (retries < 0 ==> i == 0)
        invariant conn == null && !interrupted && (i == 0 ==> err == lookupErr) && (i > 0 ==> err.Some?)
        invariant dials == old(dials) + i
        invariant sleeps == old(sleeps) + if i <= retries then i else if i > 0 then i - 1 else 0
        invariant i <= retries ==> looks == old(looks) + 2 * i
        invariant i > 0 ==> !old(cancelled) && Undone(env, old(looks), old(looks) + 2 * i - 1)
        invariant i <= retries && !cancelled ==> !old(cancelled) && Undone(env, old(looks), looks)
        invariant Valid() && Extends(old(sockets), sockets) && (old(cancelled) ==> cancelled)
        invariant Quiet(env) && !old(cancelled) ==> !cancelled
        invariant Open() == old(Open())
        invariant forall k :: old(dials) <= k < dials ==> !Succeeds(env.dial(k), proxy, targetAddr)
        decreases retries - i
      {
        var done := ContextDone();
        if done {
          return null, Some(CTX_ERR), true;
        }
        UndoneNext(env, old(looks), looks - 1);
        ghost var before := sockets;
        conn, err := Attempt(proxy, targetAddr);
        ExtendsTwice(old(sockets), before, sockets);
        if err.None? {
          return;
        }
        if i < retries {
          interrupted := Delay(old(looks));
          if interrupted {
            return null, Some(CTX_ERR), true;
          }
        }
        i := i + 1;
      }
    }

    // TCP: at most retries + 1 attempts with at most retries delays between them;
    // what it leaves open is exactly the connection it returns.  With a negative
    // retry count it attempts nothing and may return neither connection nor error.
    method Tcp(host: string, port: int, retries: int, proxy: Proxy) returns (conn: Conn?, err: Option<string>)
      requires Valid()
      modifies `lookups, `dials, `looks, `cancelled, `sleeps, `sockets
      ensures Valid() && Extends(old(sockets), sockets) && (old(cancelled) ==> cancelled)
      ensures Quiet(env) && !old(cancelled) ==> !cancelled
      ensures retries >= 0 ==> (conn != null <==> err.None?)
      ensures retries < 0 ==> conn == null && dials == old(dials)
      ensures retries < 0 ==> (err.Some? <==> env.lookup(old(lookups)).Some?)
      ensures err.Some? ==> conn == null && err.value != ""
      // The connection is the first attempt to succeed, and nothing else stays open.
      ensures conn != null ==> fresh(conn) && Owns(conn) && conn.open
                               && conn.born !in old(Open()) && dials == conn.born + 1 > old(dials)
                               && env.dial(conn.born) == Connected(conn.script)
                               && Succeeds(env.dial(conn.born), proxy, JoinHostPort(host, Itoa(port)))
      ensures forall k :: old(dials) <= k < dials && (conn == null || k < conn.born) ==>
                !Succeeds(env.dial(k), proxy, JoinHostPort(host, Itoa(port)))
      ensures Open() == old(Open()) + Born(conn)
      ensures retries >= 0 ==> old(dials) <= dials <= old(dials) + retries + 1
      ensures old(sleeps) <= sleeps && (sleeps == old(sleeps) || sleeps <= old(sleeps) + retries)
      // The context is looked at before each attempt and during each delay; no attempt
      // is made once it is cancelled, and one delay lies between any two.
      ensures dials > old(dials) ==>
                !old(cancelled) && Undone(env, old(looks), old(looks) + 2 * (dials - old(dials)) - 1)
      ensures conn != null ==> sleeps == old(sleeps) + dials - old(dials) - 1
      ensures var r := Route(env, JoinHostPort(host, Itoa(port)), retries, proxy);
              && lookups == old(lookups) + 1
              && (conn != null ==> Connects(r, old(At()), conn.born))
              && (conn == null && !cancelled ==> forall k :: !Connects(r, old(At()), k))
      // It gives up early only for a failed lookup or a cancelled context.
      ensures proxy.Direct? && env.lookup(old(lookups)).Some? ==>
                err.Some? && dials == old(dials) && sleeps == old(sleeps)
      ensures retries >= 0 && err.Some? && !cancelled && !(proxy.Direct? && env.lookup(old(lookups)).Some?) ==>
                dials == old(dials) + retries + 1 && sleeps == old(sleeps) + retries
      ensures !cancelled ==>
                var reached := Reach(Route(env, JoinHostPort(host, Itoa(port)), retries, proxy), old(At()));
                At() == reached.next && reached.conn == if conn == null then None else Some(conn.born)
      ensures proxy.Socks? && conn != null ==> AskedFor(conn.sent, JoinHostPort(host, Itoa(port)))
    {
      hide AskedFor, Undone, Quiet, Succeeds, Works, Connects, Open, Valid, Extends, FirstSuccess, JoinHostPort, Itoa;
      var targetAddr := JoinHostPort(host, Itoa(port));
      ghost var r := Route(env, targetAddr, retries, proxy);
      ReachConnects(r, At());
      ExtendsSelf(sockets);
      Unborn();
      conn := null;
      err := Lookup();
      if err.Some? && proxy.Direct? {
        return null, Some("DNS resolution failed for '" + host + "': " + err.value);
      }
      var interrupted;
      conn, err, interrupted := Retry(targetAddr, retries, proxy, err);
      if interrupted {
        return;
      }
      WorksIs(r);
      FirstSuccessIs(r, old(dials), if retries < 0 then 0 else retries + 1,
                     if conn == null then None else Some(conn.born));
      if err.None? {
        if conn != null {
          Scripted(conn);
        }
        return;
      }
      err := Some("TCP connection to " + targetAddr + " failed after retries: " + err.value);
    }
  }
}
