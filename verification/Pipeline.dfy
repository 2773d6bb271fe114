// ExecuteTarget (runner.go): the probes in sequence against one target.

module Pipeline {
  import opened Prelude
  import opened GoStrings
  import opened Targets
  import opened Connections
  import Socks5
  import opened Network
  import opened Probes
  import opened SctList

  // The parts of the configuration that decide what is dialled, and whether a TLS
  // configuration can be made from it.
  datatype Settings = Settings(retries: int, proxy: Proxy, scan: bool, configErr: Option<string>)

  datatype TargetResult = TargetResult(
    target: Target,
    tcpConnected: bool, tlsHandshakeSuccess: bool,
    certChainTrusted: bool, certChainTrustError: string, capturedChain: seq<Cert>,
    scts: seq<SctInfo>, sctCount: nat, sctsPresent: bool,
    protocolScanResults: seq<ScanResult>, serverCiphers: seq<string>,
    sessionResumptionAttempted: bool, sessionResumptionSuccess: bool, quicReachable: bool,
    error: string)

  function NewResult(target: Target): TargetResult {
    TargetResult(target, false, false, false, "", [], [], 0, false, [], [], false, false, false, "")
  }

  // How the fields of a result hang together.
  predicate Consistent(r: TargetResult) {
    && (r.error == "" ==> r.tcpConnected && r.tlsHandshakeSuccess)
    && (!r.tcpConnected ==> !r.tlsHandshakeSuccess && r.capturedChain == [])
    && r.certChainTrusted == r.tlsHandshakeSuccess
    && r.sctCount == |r.scts| && r.sctsPresent == (r.scts != [])
    && (!r.tlsHandshakeSuccess ==> r.scts == [] && !r.sessionResumptionAttempted)
    && |r.protocolScanResults| <= |VERSIONS|
    && (forall i :: 0 <= i < |r.protocolScanResults| ==> r.protocolScanResults[i].protocol == VERSIONS[i])
    && CiphersMatch(r.protocolScanResults, r.serverCiphers)
    && (!r.sessionResumptionAttempted ==>
          r.protocolScanResults == [] && !r.sessionResumptionSuccess && !r.quicReachable)
  }

  // ---- What an undisturbed call does ----

  // The attempt whose socket outlives an undisturbed call.
  function Survivor(r: Route, s: Settings, at: Cursor): Option<nat> {
    if s.configErr.Some? || Secured(r, at).None? || !s.scan then None
    else SessionTest(r, Swept(r, Reach(r, at).next, 4)).leak
  }

  lemma WorksHealthy(r: Route, k: nat)
    requires Healthy(r)
    ensures Works(r, k)
  {
  }

  lemma {:induction false} SweptHealthy(r: Route, at: Cursor, n: nat)
    requires Healthy(r)
    ensures Swept(r, at, n).dials == at.dials + n
    decreases n
  {
    hide Healthy, Works;
    ReachHealthy(r, at);
    if n > 0 {
      SweptHealthy(r, Reach(r, at).next, n - 1);
    }
  }

  lemma {:induction false} SweptOnward(r: Route, at: Cursor, n: nat)
    ensures Swept(r, at, n).dials >= at.dials
    decreases n
  {
    hide Works, FirstSuccess;
    if n > 0 {
      SweptOnward(r, Reach(r, at).next, n - 1);
    }
  }

  // A socket left behind is a later connection's that failed its handshake, under
  // -scan and after a successful first handshake.
  lemma SurvivorFailed(r: Route, s: Settings, at: Cursor)
    requires Survivor(r, s, at).Some?
    ensures s.configErr.None? && s.scan && Secured(r, at).Some?
    ensures var k := Survivor(r, s, at).value;
            k > Secured(r, at).value && Works(r, k) && Script(r.env, k).handshakeErr.Some?
  {
    hide Works, SessionTest, Swept;
    SweptOnward(r, Reach(r, at).next, 4);
    LeakCondition(r, Swept(r, Reach(r, at).next, 4));
  }

  // When nothing stands in the way of the connections, a socket is left behind if and
  // only if, under -scan and after a successful first handshake, the handshake of the
  // sixth connection fails, or the sixth closes cleanly and that of the seventh fails.
  lemma SurvivorCondition(r: Route, s: Settings, at: Cursor)
    requires Healthy(r)
    ensures var d := at.dials;
            && Works(r, d) && Works(r, d + 5) && Works(r, d + 6)
            && Survivor(r, s, at) ==
                 (if s.configErr.Some? || !s.scan || Script(r.env, d).handshakeErr.Some? then None
                  else if Script(r.env, d + 5).handshakeErr.Some? then Some(d + 5)
                  else if Script(r.env, d + 5).closeErr.None? && Script(r.env, d + 6).handshakeErr.Some?
                  then Some(d + 6)
                  else None)
  {
    hide Healthy, Reach, Swept, SessionTest;
    ReachHealthy(r, at);
    SweptHealthy(r, Reach(r, at).next, 4);
    assert Works(r, at.dials) by {
      WorksHealthy(r, at.dials);
    }
    LeakCondition(r, Swept(r, Reach(r, at).next, 4));
  }

  // ---- Which settings leave sockets behind ----

  // What can be told of the settings and the address before the call.
  predicate LeakProne(s: Settings, addr: string) {
    s.retries >= 0 && s.scan && s.configErr.None? && (s.proxy.Socks? ==> Socks5.ParseAddr(addr).Some?)
  }

  // A server, or its proxy, that lets every connection through, completes the
  // handshake of one of them and refuses every other.
  const CONSENT: seq<byte> := [5, 0, 5, 0, 0, 1, 0, 0, 0, 0, 0, 0]

  function OneHandshake(first: nat, k: nat): DialOutcome {
    var failure := if k == first then None else Some("handshake refused");
    Connected(Behaviour([CONSENT], 2, Tunnel, failure, ConnectionState([], [], false, ""), None))
  }

  function OneHandshakeEnv(first: nat): Env {
    Env(_ => false, _ => None, (k: nat) => OneHandshake(first, k), _ => "", _ => false)
  }

  lemma ConsentAccepted(target: Socks5.Endpoint)
    requires Socks5.Askable(target)
    ensures Socks5.Exchange(Flatten([CONSENT]), Some(target), 2).ok
  {
    assert Flatten([CONSENT]) == CONSENT + Flatten([]) == CONSENT;
    assert CONSENT[..2] == Socks5.NO_AUTH;
    assert CONSENT[2..][4..] == [0, 0, 0, 0, 0, 0];
  }

  lemma OneHandshakeHealthy(first: nat, s: Settings, addr: string)
    requires LeakProne(s, addr)
    ensures Quiet(OneHandshakeEnv(first))
    ensures Healthy(Route(OneHandshakeEnv(first), addr, s.retries, s.proxy))
  {
    hide Socks5.Exchange, Socks5.ParseAddr, Flatten;
    var r := Route(OneHandshakeEnv(first), addr, s.retries, s.proxy);
    if s.proxy.Socks? {
      ConsentAccepted(Socks5.ParseAddr(addr).value);
    }
    assert forall k: nat :: r.env.dial(k) == OneHandshake(first, k);
    assert forall k: nat :: Works(r, k);
  }

  lemma OneHandshakeLeaks(s: Settings, addr: string, at: Cursor)
    requires LeakProne(s, addr)
    ensures Survivor(Route(OneHandshakeEnv(at.dials), addr, s.retries, s.proxy), s, at) == Some(at.dials + 5)
  {
    hide Survivor, Healthy, Works;
    OneHandshakeHealthy(at.dials, s, addr);
    SurvivorCondition(Route(OneHandshakeEnv(at.dials), addr, s.retries, s.proxy), s, at);
  }

  // Over settings: some uncancelled call leaves a socket behind if and only if they
  // scan, can be made into a TLS configuration and let TCP make an attempt that can
  // succeed.
  lemma LeakPossible(s: Settings, addr: string, at: Cursor)
    ensures (exists env: Env :: Quiet(env) && Survivor(Route(env, addr, s.retries, s.proxy), s, at).Some?)
       <==> LeakProne(s, addr)
  {
    hide Socks5.Exchange, Socks5.ParseAddr, Flatten, SessionTest, Swept;
    if LeakProne(s, addr) {
      var env := OneHandshakeEnv(at.dials);
      OneHandshakeHealthy(at.dials, s, addr);
      OneHandshakeLeaks(s, addr, at);
      assert Quiet(env) && Survivor(Route(env, addr, s.retries, s.proxy), s, at).Some?;
    }
    forall env: Env | Survivor(Route(env, addr, s.retries, s.proxy), s, at).Some? ensures LeakProne(s, addr) {
      SurvivorFailed(Route(env, addr, s.retries, s.proxy), s, at);
      SecuredPossible(Route(env, addr, s.retries, s.proxy), at);
    }
  }

  // TCP yields a connection only if it makes attempts and, through SOCKS, can name
  // the target.
  lemma SecuredPossible(r: Route, at: Cursor)
    requires Secured(r, at).Some?
    ensures r.retries >= 0 && (r.proxy.Socks? ==> Socks5.ParseAddr(r.addr).Some?)
  {
    hide Socks5.ParseAddr, Flatten;
    assert Works(r, Secured(r, at).value);
  }

  // ---- What a call without cancellation reports ----

  // The scan: every version's entry from its own attempts, and the session test.
  ghost predicate ScanReport(r: Route, at: Cursor, result: TargetResult) {
    exists to: nat ::
      && SweepReport(r, at, to, false, result.protocolScanResults, result.serverCiphers)
      && (result.sessionResumptionSuccess <==> Resumes(r, Cursor(at.lookups + 4, to)))
  }

  // What a connection with this script comes to; the next call begins at `next`.
  ghost predicate TargetReport(r: Route, s: Settings, script: Behaviour, next: Cursor, http: string,
                               result: TargetResult) {
    && result.tcpConnected
    && (s.configErr.Some? ==>
          && !result.tlsHandshakeSuccess && result.capturedChain == [] && result.certChainTrustError == ""
          && result.error == "failed to create TLS config: " + s.configErr.value)
    && (s.configErr.None? && script.handshakeErr.Some? ==>
          var e := script.handshakeErr.value;
          && !result.tlsHandshakeSuccess && result.error == "TLS handshake failed: " + e
          && e <= result.certChainTrustError
          && FallbackReport(r, next, result.capturedChain, result.certChainTrustError[|e|..]))
    && (s.configErr.None? && script.handshakeErr.None? ==>
          && result.tlsHandshakeSuccess && result.error == http && result.certChainTrustError == ""
          && (s.scan ==> ScanReport(r, next, result)))
  }

  // A reported success shows the chain and the SCTs of the handshake it is about.
  ghost predicate ShowsHandshake(script: Behaviour, result: TargetResult) {
    && script.handshakeErr.None? && result.capturedChain == script.state.chain
    && result.scts == SctsOf(script.state) && SctsReported(script.state, result.scts)
  }

  // ---- The call ----

  // The capability scan's share of the result.
  method Scan(net: Net, target: Target, s: Settings, before: TargetResult) returns (result: TargetResult)
    requires net.Valid() && s.retries >= 0
    requires Consistent(before) && before.tlsHandshakeSuccess
    modifies net
    ensures net.Valid() && Extends(old(net.sockets), net.sockets) && (old(net.cancelled) ==> net.cancelled)
    ensures Quiet(net.env) && !old(net.cancelled) ==> !net.cancelled
    ensures Consistent(result) && result.sessionResumptionAttempted
    ensures result.target == before.target && result.error == before.error
            && result.tcpConnected == before.tcpConnected
            && result.tlsHandshakeSuccess == before.tlsHandshakeSuccess
            && result.certChainTrustError == before.certChainTrustError
            && result.capturedChain == before.capturedChain && result.scts == before.scts
    ensures result.quicReachable == net.env.quic(old(net.datagrams)) && net.requests == old(net.requests)
    ensures old(net.Open()) <= net.Open() && net.Open() - old(net.Open()) <= net.failed
    ensures forall j, k :: j in net.Open() - old(net.Open()) && k in net.Open() - old(net.Open()) ==> j == k
    ensures result.sessionResumptionSuccess ==> net.Open() == old(net.Open())
    ensures !net.cancelled ==>
              var r, at := RouteTo(net.env, target.host, target.port, s.retries, s.proxy), old(net.At());
              var session := SessionTest(r, Swept(r, at, 4));
              && net.Open() - old(net.Open()) == Just(session.leak)
              && result.sessionResumptionSuccess == session.resumed
              && ScanReport(r, at, result)
    ensures old(net.dials) <= net.dials <= old(net.dials) + 6 * (s.retries + 1)
  {
    hide RouteTo, Reach, SessionTest, Swept, CiphersMatch, SweepReport, Resumes, LeavesBehind, Extends,
         net.Open, net.Valid;
    var scanResults, ciphers := ScanCipherSuites(net, target.host, target.port, s.retries, s.proxy);
    ghost var swept := net.sockets;
    ghost var between := net.At();
    var resumed := TestSessionResumption(net, target.host, target.port, s.retries, s.proxy);
    ExtendsTwice(old(net.sockets), swept, net.sockets);
    var reachable := net.Quic();
    result := before.(protocolScanResults := scanResults, serverCiphers := ciphers,
      sessionResumptionAttempted := true, sessionResumptionSuccess := resumed, quicReachable := reachable);
  }

  lemma LastClosed(before: set<nat>, after: set<nat>, born: nat)
    requires born in before && before <= after
    ensures (after - {born}) - (before - {born}) == after - before
  {
  }

  // From the TLS configuration on, over an open connection.  The connection is closed
  // on the way out, after the result has been copied: an error of that close reaches
  // nobody.
  method Examine(net: Net, s: Settings, target: Target, rawConn: Conn, before: TargetResult)
    returns (result: TargetResult)
    requires net.Valid() && net.Owns(rawConn) && rawConn.open && s.retries >= 0
    requires before == NewResult(target).(tcpConnected := true)
    modifies net, rawConn`open
    ensures net.Valid() && Extends(old(net.sockets), net.sockets) && (old(net.cancelled) ==> net.cancelled)
    ensures Quiet(net.env) && !old(net.cancelled) ==> !net.cancelled
    ensures Consistent(result) && result.target == target && result.tcpConnected
    ensures result.sessionResumptionAttempted == (s.scan && result.tlsHandshakeSuccess)
    ensures var kept := old(net.Open()) - {rawConn.born};
            && kept <= net.Open() && net.Open() - kept <= net.failed
            && (forall j, k :: j in net.Open() - kept && k in net.Open() - kept ==> j == k)
            && (net.Open() != kept ==>
                  s.scan && result.tlsHandshakeSuccess && !result.sessionResumptionSuccess)
    ensures !net.cancelled ==>
              var r, at := RouteTo(net.env, target.host, target.port, s.retries, s.proxy), old(net.At());
              var shaken := s.configErr.None? && rawConn.script.handshakeErr.None?;
              && net.Open() - (old(net.Open()) - {rawConn.born})
                   == Just(if shaken && s.scan then SessionTest(r, Swept(r, at, 4)).leak else None)
              && result.tlsHandshakeSuccess == shaken
              && TargetReport(r, s, rawConn.script, at, net.env.http(old(net.requests)), result)
    ensures result.tlsHandshakeSuccess ==> ShowsHandshake(rawConn.script, result)
    ensures result.sessionResumptionAttempted ==> result.quicReachable == net.env.quic(old(net.datagrams))
    ensures old(net.dials) <= net.dials
    ensures net.dials <= old(net.dials) +
              (if !result.tlsHandshakeSuccess then 1 else if s.scan then 6 else 0) * (s.retries + 1)
  {
    hide JoinHostPort, Itoa, Reach, SessionTest, Swept, Succeeds, AskedFor, SctsOf, SctsReported, CiphersMatch,
         FallbackChain, FallbackReport, ScanReport, Extends, net.Open, net.Valid;
    result := before;
    SctsOfReported(rawConn.script.state);
    NothingMatches();
    ExtendsSelf(net.sockets);
    net.OpenOne(rawConn);
    if s.configErr.Some? {
      var closeErr := net.Close(rawConn);
      result := result.(error := "failed to create TLS config: " + s.configErr.value);
      return;
    }

    var tlsConn, tlsRes, handshakeErr := Tls(net, rawConn, target.host, target.port, s.retries, s.proxy);
    net.StillOwns(old(net.sockets), rawConn);
    result := result.(
      tlsHandshakeSuccess := tlsRes.handshakeSuccess, certChainTrusted := tlsRes.certTrusted,
      certChainTrustError := tlsRes.trustError, capturedChain := tlsRes.chain,
      scts := tlsRes.scts, sctCount := tlsRes.sctCount, sctsPresent := tlsRes.sctsPresent);
    if handshakeErr.Some? {
      var closeErr := net.Close(rawConn);
      result := result.(error := handshakeErr.value);
      return;
    }

    var httpErr := net.Http();
    if httpErr != "" {
      result := result.(error := httpErr);
    }
    if s.scan {
      ghost var shaken, open := net.sockets, net.Open();
      result := Scan(net, target, s, result);
      ExtendsTwice(old(net.sockets), shaken, net.sockets);
      net.StillOwns(shaken, rawConn);
      LastClosed(open, net.Open(), rawConn.born);
    }
    var closeErr := net.Close(tlsConn);
  }

  // ExecuteTarget.  With a negative retry count TCP may return neither a connection
  // nor an error; what follows then uses the missing connection and panics.
  method ExecuteTarget(net: Net, s: Settings, target: Target) returns (result: TargetResult, panicked: bool)
    requires net.Valid()
    modifies net
    ensures net.Valid() && Extends(old(net.sockets), net.sockets) && (old(net.cancelled) ==> net.cancelled)
    ensures Quiet(net.env) && !old(net.cancelled) ==> !net.cancelled
    ensures panicked <==> s.retries < 0 && net.env.lookup(old(net.lookups)).None?
    ensures panicked ==> net.Open() == old(net.Open()) && net.dials == old(net.dials)
    ensures !panicked ==> Consistent(result) && result.target == target
                          && result.sessionResumptionAttempted == (s.scan && result.tlsHandshakeSuccess)
    // At most one probe socket outlives the call, and only one whose handshake in a
    // failed session test went wrong.
    ensures old(net.Open()) <= net.Open() && net.Open() - old(net.Open()) <= net.failed
    ensures forall j, k :: j in net.Open() - old(net.Open()) && k in net.Open() - old(net.Open()) ==> j == k
    ensures net.Open() != old(net.Open()) ==>
              !panicked && s.scan && result.tlsHandshakeSuccess && !result.sessionResumptionSuccess
    // Without cancellation, exactly which, and exactly when the connection and the
    // handshake are reported to have succeeded.
    ensures !net.cancelled ==>
              var r, at := RouteTo(net.env, target.host, target.port, s.retries, s.proxy), old(net.At());
              && net.Open() - old(net.Open()) == Just(Survivor(r, s, at))
              && (!panicked ==> && (result.tcpConnected <==> Reach(r, at).conn.Some?)
                                && (result.tlsHandshakeSuccess <==> Secured(r, at).Some? && s.configErr.None?))
    // What the result says: of the first attempt to work, when there was one.
    ensures !panicked && !result.tcpConnected ==> result == NewResult(target).(error := result.error)
    ensures var r, at := RouteTo(net.env, target.host, target.port, s.retries, s.proxy), old(net.At());
            && (!panicked && result.tlsHandshakeSuccess ==>
                  exists k: nat :: Connects(r, at, k) && ShowsHandshake(Script(r.env, k), result))
            && (!panicked && result.sessionResumptionAttempted ==>
                  result.quicReachable == net.env.quic(old(net.datagrams)))
            && (!net.cancelled ==>
                  forall k: nat :: Connects(r, at, k) ==>
                    && TargetReport(r, s, Script(r.env, k), After(at, k), net.env.http(old(net.requests)), result)
                    && (result.tlsHandshakeSuccess ==> ShowsHandshake(Script(r.env, k), result)))
            && (!net.cancelled && !panicked && (forall k: nat :: !Connects(r, at, k)) ==> !result.tcpConnected)
    // One round of attempts when the target is unreachable, two when its handshake
    // fails, seven with a full scan.
    ensures !panicked && s.retries >= 0 ==>
              net.dials <= old(net.dials) +
                (if !result.tcpConnected then 1
                 else if !result.tlsHandshakeSuccess then 2
                 else if s.scan then 7 else 1) * (s.retries + 1)
    ensures s.retries < 0 ==> net.dials == old(net.dials)
  {
    hide JoinHostPort, Itoa, Reach, SessionTest, Swept, Succeeds, AskedFor, SctsOf, CiphersMatch, Connects,
         TargetReport, ShowsHandshake, Extends, net.Open, net.Valid;
    NothingMatches();
    ghost var r, at := RouteTo(net.env, target.host, target.port, s.retries, s.proxy), net.At();
    ReachConnects(r, at);
    panicked := false;
    result := NewResult(target);
    var rawConn, dialErr := net.Tcp(target.host, target.port, s.retries, s.proxy);
    if dialErr.Some? {
      result := result.(error := dialErr.value);
      return;
    }
    if rawConn == null {
      return result, true;
    }
    result := result.(tcpConnected := true);
    ghost var dialled := net.sockets;
    result := Examine(net, s, target, rawConn, result);
    ExtendsTwice(old(net.sockets), dialled, net.sockets);
  }

  // For all those settings: a call that is never cancelled, reports success and leaves
  // the socket of its sixth connection open.
  method SocketLeftBehind(s: Settings, target: Target) returns (net: Net, result: TargetResult)
    requires LeakProne(s, JoinHostPort(target.host, Itoa(target.port)))
    ensures !net.cancelled && net.Open() == {5} && net.failed >= {5}
    ensures result.tcpConnected && result.tlsHandshakeSuccess && !result.sessionResumptionSuccess
  {
    hide LeakProne, Healthy, Quiet, Swept, SessionTest, Survivor, JoinHostPort, Itoa, Consistent;
    net := new Net(OneHandshakeEnv(0));
    ghost var addr := JoinHostPort(target.host, Itoa(target.port));
    OneHandshakeHealthy(0, s, addr);
    OneHandshakeLeaks(s, addr, net.At());
    ReachHealthy(Route(net.env, addr, s.retries, s.proxy), net.At());
    var panicked;
    result, panicked := ExecuteTarget(net, s, target);
  }
}
