// The TLS probe, the capability scan and the session test (probes/tls.go,
// probes/scan.go): what they report, which sockets they leave open, how often they dial.

module Probes {
  import opened Prelude
  import opened GoStrings
  import opened Connections
  import opened Network
  import opened SctList
  import SctTheorems

  function RouteTo(env: Env, host: string, port: int, retries: int, proxy: Proxy): Route {
    Route(env, JoinHostPort(host, Itoa(port)), retries, proxy)
  }

  // ---- Handshakes ----

  // What the connection opened by the k-th attempt goes through.
  function Script(env: Env, k: nat): Behaviour
    requires env.dial(k).Connected?
  {
    env.dial(k).script
  }

  // HandshakeContext: a failed handshake leaves the socket open, unless the
  // cancelled context has closed it.
  method HandshakeContext(net: Net, conn: Conn) returns (err: Option<string>, state: ConnectionState)
    requires net.Valid() && net.Owns(conn)
    modifies net`cancelled, net`looks, net`failed, conn`open
    ensures net.Valid() && (old(net.cancelled) ==> net.cancelled)
    ensures Quiet(net.env) && !old(net.cancelled) ==> !net.cancelled
    ensures err == conn.script.handshakeErr && state == conn.script.state
    ensures net.failed == old(net.failed) + (if err.Some? then {conn.born} else {})
    ensures err.None? || !net.cancelled ==> conn.open == old(conn.open)
    ensures conn.open ==> old(conn.open)
    ensures net.Open() == old(net.Open()) - (if conn.open then {} else {conn.born})
  {
    err, state := conn.script.handshakeErr, conn.script.state;
    if err.Some? {
      net.failed := net.failed + {conn.born};
      var done := net.ContextDone();
      var interrupted: bool := *;
      if done && interrupted {
        conn.open := false;
      }
    }
  }

  // ---- The TLS probe ----

  datatype TlsResult = TlsResult(
    handshakeSuccess: bool, certTrusted: bool, trustError: string, chain: seq<Cert>,
    scts: seq<SctInfo>, sctCount: nat, sctsPresent: bool)

  const NO_RESULT := TlsResult(false, false, "", [], [], 0, false)

  // SCTs delivered by the handshake, or else those embedded in the leaf certificate.
  function SctsOf(state: ConnectionState): seq<SctInfo> {
    var delivered := Decoded(state.timestamps, "tls_extension");
    if delivered != [] || state.chain == [] then delivered else Embedded(state.chain[0].extensions)
  }

  // The extension that decides: the first with the SCT list's identifier.
  ghost predicate ListAt(state: ConnectionState, k: nat) {
    && state.chain != []
    && var extensions := state.chain[0].extensions;
       && k < |extensions| && extensions[k].id == SCT_LIST_OID
       && forall j :: 0 <= j < k ==> extensions[j].id != SCT_LIST_OID
  }

  // SCTs of the handshake, one for each that is long enough, in order; when it
  // delivered none, those of the leaf's list; without a list none.
  ghost predicate SctsReported(state: ConnectionState, scts: seq<SctInfo>) {
    var at := SctTheorems.LongAt(state.timestamps);
    && (at != [] ==> SctTheorems.ReportedFrom(state.timestamps, at, scts, "tls_extension"))
    && (at == [] ==> forall k: nat :: ListAt(state, k) ==>
          scts == ParseList(state.chain[0].extensions[k].value, "embedded"))
    && (at == [] && (forall k: nat :: !ListAt(state, k)) ==> scts == [])
  }

  lemma {:induction false} EmbeddedIs(state: ConnectionState)
    requires state.chain != []
    ensures var extensions := state.chain[0].extensions;
            && (forall k: nat :: ListAt(state, k) ==>
                  Embedded(extensions) == ParseList(extensions[k].value, "embedded"))
            && ((forall k: nat :: !ListAt(state, k)) ==> Embedded(extensions) == [])
  {
    hide ParseList;
    FirstList(state, 0);
    assert state.chain[0].extensions[0..] == state.chain[0].extensions;
  }

  lemma {:induction false} FirstList(state: ConnectionState, i: nat)
    requires state.chain != [] && i <= |state.chain[0].extensions|
    requires forall j :: 0 <= j < i ==> state.chain[0].extensions[j].id != SCT_LIST_OID
    ensures var extensions := state.chain[0].extensions;
            && (forall k: nat :: ListAt(state, k) ==>
                  Embedded(extensions[i..]) == ParseList(extensions[k].value, "embedded"))
            && ((forall k: nat :: !ListAt(state, k)) ==> Embedded(extensions[i..]) == [])
    decreases |state.chain[0].extensions| - i
  {
    hide ParseList;
    var extensions := state.chain[0].extensions;
    if i < |extensions| {
      assert extensions[i..][0] == extensions[i] && extensions[i..][1..] == extensions[i + 1..];
      if extensions[i].id == SCT_LIST_OID {
        assert ListAt(state, i);
      } else {
        FirstList(state, i + 1);
      }
    }
  }

  lemma SctsOfReported(state: ConnectionState)
    ensures SctsReported(state, SctsOf(state))
  {
    hide Decoded, Embedded, ParseList, SctTheorems.LongAt;
    SctTheorems.DecodedAre(state.timestamps, "tls_extension");
    if state.chain != [] {
      EmbeddedIs(state);
    }
  }

  // A leaf that carries a log's SCTs in its list is reported with exactly those, when
  // the handshake itself delivered none long enough.
  lemma LeafReported(state: ConnectionState, k: nat, scts: seq<SctTheorems.Sct>, trailing: seq<byte>)
    requires forall i :: 0 <= i < |state.timestamps| ==> |state.timestamps[i]| < 43
    requires forall i :: 0 <= i < |scts| ==> SctTheorems.ValidSct(scts[i])
    requires SctTheorems.Serializable(SctTheorems.Encoded(scts)) && ListAt(state, k)
    requires SctTheorems.WrappedList(state.chain[0].extensions[k].value, SctTheorems.Encoded(scts), trailing)
    ensures SctsOf(state) == seq(|scts|, i requires 0 <= i < |scts| => SctTheorems.Info(scts[i], "embedded"))
  {
    hide Decoded, Embedded, ParseList, SctsOf, SctTheorems.LongAt, SctTheorems.Info, SctTheorems.EncodeSct;
    SctTheorems.NoneLong(state.timestamps);
    SctsOfReported(state);
    assert SctsOf(state) == ParseList(state.chain[0].extensions[k].value, "embedded");
    SctTheorems.CertificateRoundTrip(scts, trailing, "embedded");
  }

  method CollectScts(state: ConnectionState) returns (scts: seq<SctInfo>)
    ensures scts == SctsOf(state) && SctsReported(state, scts)
  {
    hide DecodeSct, ParseList, Embedded, SctsReported;
    SctsOfReported(state);
    scts := [];
    for i := 0 to |state.timestamps|
      invariant scts == Decoded(state.timestamps[..i], "tls_extension")
    {
      assert state.timestamps[..i + 1] == state.timestamps[..i] + [state.timestamps[i]];
      DecodedAppend(state.timestamps[..i], state.timestamps[i], "tls_extension");
      var sct := ParseSct(state.timestamps[i], "tls_extension");
      if sct.Some? {
        scts := scts + [sct.value];
      }
    }
    assert state.timestamps[..|state.timestamps|] == state.timestamps;
    if scts == [] && state.chain != [] {
      scts := ParseEmbedded(state.chain[0].extensions);
    }
  }

  // The attempt whose connection an undisturbed call gets and completes a handshake on.
  function Secured(r: Route, at: Cursor): Option<nat> {
    var conn := Reach(r, at).conn;
    if conn.Some? && Script(r.env, conn.value).handshakeErr.None? then conn else None
  }

  // The certificates a fallback connection yields.
  function FallbackChain(r: Route, at: Cursor): seq<Cert> {
    var conn := Secured(r, at);
    if conn.Some? then Script(r.env, conn.value).state.chain else []
  }

  // What a fallback without cancellation tells: the certificates of the connection it
  // gets, if its handshake completes, and a note if its close reports an error.
  ghost predicate FallbackReport(r: Route, at: Cursor, chain: seq<Cert>, note: string) {
    && (forall k: nat :: Connects(r, at, k) ==>
          var script := Script(r.env, k);
          var layer := if script.handshakeErr.None? then "tls" else "tcp";
          && chain == (if script.handshakeErr.None? then script.state.chain else [])
          && note == (if script.closeErr.None? then ""
                      else " (fallback " + layer + " close error: " + script.closeErr.value + ")"))
    && ((forall k: nat :: !Connects(r, at, k)) ==> chain == [] && note == "")
  }

  lemma ConnectsOnce(r: Route, at: Cursor, j: nat, k: nat)
    requires Connects(r, at, j) && Connects(r, at, k)
    ensures j == k
  {
    hide Works;
  }

  // The fallback probe: its certificates, and a note if its close reports an error.
  method Fallback(net: Net, host: string, port: int, retries: nat, proxy: Proxy)
    returns (chain: seq<Cert>, note: string)
    requires net.Valid()
    modifies net
    ensures net.Valid() && Extends(old(net.sockets), net.sockets) && (old(net.cancelled) ==> net.cancelled)
    ensures Quiet(net.env) && !old(net.cancelled) ==> !net.cancelled
    ensures !net.cancelled ==>
              var r := RouteTo(net.env, host, port, retries, proxy);
              && chain == FallbackChain(r, old(net.At())) && net.At() == Reach(r, old(net.At())).next
              && FallbackReport(r, old(net.At()), chain, note)
    ensures old(net.failed) <= net.failed && net.Open() == old(net.Open())
    ensures net.requests == old(net.requests) && net.datagrams == old(net.datagrams)
    ensures old(net.dials) <= net.dials <= old(net.dials) + retries + 1
  {
    hide JoinHostPort, Itoa, Succeeds, AskedFor, Connects, FallbackReport, Extends, Reach, net.Open, net.Valid;
    chain, note := [], "";
    ghost var r, at := RouteTo(net.env, host, port, retries, proxy), net.At();
    var conn, dialErr := net.Tcp(host, port, retries, proxy);
    if dialErr.None? {
      var insecureErr, state := HandshakeContext(net, conn);
      if insecureErr.None? {
        chain := state.chain;
      }
      var closeErr := net.Close(conn);
      if closeErr.Some? {
        var layer := if insecureErr.None? then "tls" else "tcp";
        note := " (fallback " + layer + " close error: " + closeErr.value + ")";
      }
      if !net.cancelled {
        FallbackTells(r, at, conn.born, conn.script, chain, note);
      }
    } else if !net.cancelled {
      FallbackSilent(r, at);
    }
  }

  lemma FallbackTells(r: Route, at: Cursor, k: nat, script: Behaviour, chain: seq<Cert>, note: string)
    requires Connects(r, at, k) && r.env.dial(k) == Connected(script)
    requires chain == if script.handshakeErr.None? then script.state.chain else []
    requires note == if script.closeErr.None? then ""
                     else " (fallback " + (if script.handshakeErr.None? then "tls" else "tcp")
                          + " close error: " + script.closeErr.value + ")"
    ensures FallbackReport(r, at, chain, note)
  {
    forall j: nat | Connects(r, at, j) ensures j == k {
      ConnectsOnce(r, at, j, k);
    }
  }

  lemma FallbackSilent(r: Route, at: Cursor)
    requires forall k: nat :: !Connects(r, at, k)
    ensures FallbackReport(r, at, [], "")
  {
  }

  // TLS: the handshake races the context; on failure a second connection fetches
  // the certificates without verification and is closed again.
  method Tls(net: Net, raw: Conn, host: string, port: int, retries: nat, proxy: Proxy)
    returns (tlsConn: Conn?, result: TlsResult, err: Option<string>)
    requires net.Valid() && net.Owns(raw) && raw.open
    modifies net, raw`open
    ensures net.Valid() && Extends(old(net.sockets), net.sockets) && (old(net.cancelled) ==> net.cancelled)
    ensures Quiet(net.env) && !old(net.cancelled) ==> !net.cancelled
    // Success: the connection stays open, with what its own handshake revealed.
    ensures err.None? ==> && tlsConn == raw && raw.open && raw.script.handshakeErr.None?
                          && result.handshakeSuccess && result.certTrusted && net.dials == old(net.dials)
                          && result.chain == raw.script.state.chain && result.scts == SctsOf(raw.script.state)
                          && result.trustError == ""
                          && net.failed == old(net.failed) && net.At() == old(net.At()) && net.Open() == old(net.Open())
    ensures err.Some? ==> && tlsConn == null && err.value != ""
                          && !result.handshakeSuccess && !result.certTrusted && result.scts == []
    // Without cancellation it fails exactly when the handshake does, and reports the
    // fallback's certificates.
    ensures err.Some? && !net.cancelled ==>
              var r := RouteTo(net.env, host, port, retries, proxy);
              && raw.script.handshakeErr.Some? && raw.script.handshakeErr.value <= result.trustError
              && FallbackReport(r, old(net.At()), result.chain, result.trustError[|raw.script.handshakeErr.value|..])
              && err.value == "TLS handshake failed: " + raw.script.handshakeErr.value
              && raw.born in net.failed && result.chain == FallbackChain(r, old(net.At()))
              && net.At() == Reach(r, old(net.At())).next
    ensures result.sctCount == |result.scts| && result.sctsPresent == (result.scts != [])
    ensures net.Open() - {raw.born} == old(net.Open()) - {raw.born}
    ensures net.requests == old(net.requests) && net.datagrams == old(net.datagrams)
    ensures old(net.dials) <= net.dials <= old(net.dials) + retries + 1
  {
    hide Decoded, ParseList, SctsOf, SctsReported, JoinHostPort, Itoa, Reach, RouteTo, FallbackChain,
         FallbackReport, Extends, net.Open, net.Valid;
    result := NO_RESULT;
    ExtendsSelf(net.sockets);
    var done := net.ContextDone();
    var doneFirst: bool := *;
    if done && doneFirst {
      var closeErr := net.Close(raw);
      return null, result, Some(
        match closeErr
        case Some(reason) => "context cancelled and socket close failed: " + reason + ": " + CTX_ERR
        case None => CTX_ERR);
    }
    var failure, state := HandshakeContext(net, raw);
    if failure.Some? {
      var chain, note := Fallback(net, host, port, retries, proxy);
      result := result.(trustError := failure.value + note, chain := chain);
      assert result.trustError[|failure.value|..] == note;
      return null, result, Some("TLS handshake failed: " + failure.value);
    }
    var scts := CollectScts(state);
    return raw, TlsResult(true, true, "", state.chain, scts, |scts|, |scts| > 0), None;
  }

  // ---- The version sweep ----

  const VERSIONS: seq<string> := ["TLS1.0", "TLS1.1", "TLS1.2", "TLS1.3"]

  datatype ScanResult = ScanResult(protocol: string, status: string)

  predicate IsSupported(r: ScanResult) {
    "SUPPORTED" <= r.status
  }

  // The versions found supported, in order.
  function Supported(results: seq<ScanResult>): seq<string> {
    if results == [] then []
    else
      var last := results[|results| - 1];
      Supported(results[..|results| - 1]) + if IsSupported(last) then [last.protocol] else []
  }

  // How a cipher of a version is listed.
  function Labelled(cipher: string, name: string): string {
    cipher + " (" + name + ")"
  }

  predicate EndsWith(s: string, suffix: string) {
    |suffix| <= |s| && s[|s| - |suffix|..] == suffix
  }

  // The k-th cipher names the k-th supported version.
  predicate CiphersMatch(results: seq<ScanResult>, ciphers: seq<string>) {
    && |ciphers| == |Supported(results)|
    && forall k :: 0 <= k < |ciphers| ==> EndsWith(ciphers[k], Labelled("", Supported(results)[k]))
  }

  const FAILED := "FAILED (TCP)"
  const REJECTED := "DISABLED / REJECTED"
  const SUPPORTED := "SUPPORTED"

  // What a connection with this script means for the entry of a version.
  predicate EntryReport(script: Behaviour, name: string, entry: ScanResult, cipher: Option<string>) {
    if script.handshakeErr.Some? then entry.status == REJECTED && cipher.None?
    else
      && cipher == Some(script.state.cipher + " (" + name + ")")
      && entry.status == SUPPORTED + (if script.closeErr.None? then ""
                                      else " (Close error: " + script.closeErr.value + ")")
  }

  // What one version's attempts, from at.dials up to `to`, mean for its entry: the
  // first that works ends them and decides by its handshake.  Without cancellation
  // no attempt was missed.
  ghost predicate VersionReport(r: Route, at: Cursor, to: nat, disturbed: bool, name: string,
                                entry: ScanResult, cipher: Option<string>) {
    && entry.protocol == name && at.dials <= to
    && (forall k: nat :: at.dials <= k < to - 1 ==> !Works(r, k))
    && if at.dials < to && Works(r, to - 1) then
         r.env.dial(to - 1).Connected? && EntryReport(r.env.dial(to - 1).script, name, entry, cipher)
       else
         && entry.status == FAILED && cipher.None?
         && (disturbed || forall k: nat :: !Connects(r, at, k))
  }

  lemma TurnConnected(r: Route, at: Cursor, to: nat, disturbed: bool, name: string, script: Behaviour,
                      entry: ScanResult, cipher: Option<string>)
    requires to > 0 && Connects(r, at, to - 1) && r.env.dial(to - 1) == Connected(script)
    requires entry.protocol == name && EntryReport(script, name, entry, cipher)
    ensures VersionReport(r, at, to, disturbed, name, entry, cipher)
  {
    hide EntryReport, Works;
    WorksIs(r);
  }

  lemma TurnFailed(r: Route, at: Cursor, to: nat, disturbed: bool, name: string)
    requires at.dials <= to && forall k: nat :: at.dials <= k < to ==> !Works(r, k)
    requires disturbed || forall k: nat :: !Connects(r, at, k)
    ensures VersionReport(r, at, to, disturbed, name, ScanResult(name, FAILED), None)
  {
    hide EntryReport, Works, Connects;
  }

  // Those found, in order.
  function Listed(found: seq<Option<string>>): seq<string> {
    if found == [] then []
    else
      var last := found[|found| - 1];
      Listed(found[..|found| - 1]) + if last.Some? then [last.value] else []
  }

  // The versions took their turns at these marks; the context can have been cancelled
  // during the last one only.
  ghost predicate Turns(r: Route, at: Cursor, to: nat, disturbed: bool, results: seq<ScanResult>,
                        ciphers: seq<string>, marks: seq<nat>, found: seq<Option<string>>) {
    && |results| == |found| <= |VERSIONS| && |marks| == |results| + 1
    && marks[0] == at.dials && marks[|results|] == to && ciphers == Listed(found)
    && forall i: nat :: i < |results| ==>
         VersionReport(r, Cursor(at.lookups + i, marks[i]), marks[i + 1], disturbed && i + 1 == |results|,
                       VERSIONS[i], results[i], found[i])
  }

  ghost predicate SweepReport(r: Route, at: Cursor, to: nat, disturbed: bool,
                              results: seq<ScanResult>, ciphers: seq<string>) {
    exists marks: seq<nat>, found: seq<Option<string>> ::
      Turns(r, at, to, disturbed, results, ciphers, marks, found)
  }

  lemma SweepNone(r: Route, at: Cursor, disturbed: bool)
    ensures SweepReport(r, at, at.dials, disturbed, [], [])
  {
    assert Turns(r, at, at.dials, disturbed, [], [], [at.dials], []);
  }

  lemma SweepDisturbed(r: Route, at: Cursor, to: nat, disturbed: bool, results: seq<ScanResult>, ciphers: seq<string>)
    requires SweepReport(r, at, to, disturbed, results, ciphers)
    ensures SweepReport(r, at, to, true, results, ciphers)
  {
    hide Works, Connects;
    var marks, found :| Turns(r, at, to, disturbed, results, ciphers, marks, found);
    assert Turns(r, at, to, true, results, ciphers, marks, found);
  }

  lemma ListedNext(found: seq<Option<string>>, cipher: Option<string>)
    ensures Listed(found + [cipher]) == if cipher.Some? then Listed(found) + [cipher.value] else Listed(found)
  {
    assert (found + [cipher])[..|found|] == found;
  }

  lemma SweepNext(r: Route, at: Cursor, mid: nat, to: nat, disturbed: bool, results: seq<ScanResult>,
                  ciphers: seq<string>, entry: ScanResult, cipher: Option<string>)
    requires SweepReport(r, at, mid, false, results, ciphers) && |results| < |VERSIONS|
    requires VersionReport(r, Cursor(at.lookups + |results|, mid), to, disturbed, VERSIONS[|results|], entry, cipher)
    ensures SweepReport(r, at, to, disturbed, results + [entry],
                        if cipher.Some? then ciphers + [cipher.value] else ciphers)
  {
    hide VersionReport, Listed;
    var marks, found :| Turns(r, at, mid, false, results, ciphers, marks, found);
    var more := if cipher.Some? then ciphers + [cipher.value] else ciphers;
    ListedNext(found, cipher);
    assert Turns(r, at, to, disturbed, results + [entry], more, marks + [to], found + [cipher]);
  }

  function Swept(r: Route, at: Cursor, n: nat): Cursor
    decreases n
  {
    if n == 0 then at else Swept(r, Reach(r, at).next, n - 1)
  }

  lemma NothingMatches()
    ensures CiphersMatch([], [])
  {
  }

  // One version of the sweep: its entry, and its cipher when supported.
  method ScanVersion(net: Net, host: string, port: int, retries: nat, proxy: Proxy, name: string)
    returns (entry: ScanResult, cipher: Option<string>)
    requires net.Valid()
    modifies net
    ensures net.Valid() && Extends(old(net.sockets), net.sockets) && (old(net.cancelled) ==> net.cancelled)
    ensures Quiet(net.env) && !old(net.cancelled) ==> !net.cancelled
    ensures entry.protocol == name && IsSupported(entry) == cipher.Some?
    ensures cipher.Some? ==> EndsWith(cipher.value, Labelled("", name))
    ensures VersionReport(RouteTo(net.env, host, port, retries, proxy), old(net.At()), net.dials, net.cancelled,
                          name, entry, cipher)
    ensures !net.cancelled ==>
              net.At() == Reach(RouteTo(net.env, host, port, retries, proxy), old(net.At())).next
    ensures net.Open() == old(net.Open()) && net.lookups == old(net.lookups) + 1
    ensures net.requests == old(net.requests) && net.datagrams == old(net.datagrams)
    ensures old(net.dials) <= net.dials <= old(net.dials) + retries + 1
  {
    hide JoinHostPort, Itoa, Succeeds, Works, AskedFor, Connects, VersionReport, Extends, Reach, net.Open, net.Valid;
    ghost var r, at := RouteTo(net.env, host, port, retries, proxy), net.At();
    WorksIs(r);
    var conn, err := net.Tcp(host, port, retries, proxy);
    if err.Some? {
      entry, cipher := ScanResult(name, FAILED), None;
      assert entry.status[0] == 'F';
      TurnFailed(r, at, net.dials, net.cancelled, name);
      return;
    }
    var failure, state := HandshakeContext(net, conn);
    var closeErr := net.Close(conn);
    if failure.Some? {
      entry, cipher := ScanResult(name, REJECTED), None;
      assert entry.status[0] == 'D';
      TurnConnected(r, at, net.dials, net.cancelled, name, conn.script, entry, cipher);
      return;
    }
    cipher := Some(Labelled(state.cipher, name));
    assert cipher.value == state.cipher + Labelled("", name);
    entry := ScanResult(name, SUPPORTED);
    if closeErr.Some? {
      entry := entry.(status := entry.status + " (Close error: " + closeErr.value + ")");
    }
    TurnConnected(r, at, net.dials, net.cancelled, name, conn.script, entry, cipher);
  }

  // ScanCipherSuites: one entry a version, in order, until the context is done;
  // one cipher for each supported version, under its name; nothing left open.
  method ScanCipherSuites(net: Net, host: string, port: int, retries: nat, proxy: Proxy)
    returns (results: seq<ScanResult>, ciphers: seq<string>)
    requires net.Valid()
    modifies net
    ensures net.Valid() && Extends(old(net.sockets), net.sockets) && (old(net.cancelled) ==> net.cancelled)
    ensures Quiet(net.env) && !old(net.cancelled) ==> !net.cancelled
    ensures |results| <= |VERSIONS| && (|results| < |VERSIONS| ==> net.cancelled)
    ensures forall i :: 0 <= i < |results| ==> results[i].protocol == VERSIONS[i]
    ensures CiphersMatch(results, ciphers)
    ensures old(net.cancelled) ==> results == [] && net.dials == old(net.dials)
    ensures !net.cancelled ==>
              var r := RouteTo(net.env, host, port, retries, proxy);
              net.At() == Swept(r, old(net.At()), 4)
    // Each entry says what its own attempts came to.
    ensures SweepReport(RouteTo(net.env, host, port, retries, proxy), old(net.At()), net.dials, net.cancelled,
                        results, ciphers)
    ensures net.Open() == old(net.Open()) && net.lookups == old(net.lookups) + |results|
    ensures net.requests == old(net.requests) && net.datagrams == old(net.datagrams)
    ensures old(net.dials) <= net.dials <= old(net.dials) + 4 * (retries + 1)
  {
    hide CiphersMatch, Swept, Reach, RouteTo, VersionReport, SweepReport, Extends, net.Open, net.Valid;
    ghost var r, at, round := RouteTo(net.env, host, port, retries, proxy), net.At(), retries + 1;
    results, ciphers := [], [];
    ExtendsSelf(net.sockets);
    NothingMatches();
    SweepNone(r, at, net.cancelled);
    for i := 0 to |VERSIONS|
      invariant net.Valid() && Extends(old(net.sockets), net.sockets) && (old(net.cancelled) ==> net.cancelled)
      invariant Quiet(net.env) && !old(net.cancelled) ==> !net.cancelled
      invariant |results| == i && CiphersMatch(results, ciphers)
      invariant old(net.cancelled) ==> i == 0 && net.dials == old(net.dials)
      invariant forall k :: 0 <= k < i ==> results[k].protocol == VERSIONS[k]
      invariant !net.cancelled ==> Swept(r, at, 4) == Swept(r, net.At(), 4 - i)
      invariant SweepReport(r, at, net.dials, net.cancelled, results, ciphers)
      invariant net.Open() == old(net.Open()) && net.lookups == old(net.lookups) + i
      invariant net.requests == old(net.requests) && net.datagrams == old(net.datagrams)
      invariant old(net.dials) <= net.dials <= old(net.dials) + i * round
    {
      ghost var disturbed := net.cancelled;
      var done := net.ContextDone();
      if done {
        SweepDisturbed(r, at, net.dials, disturbed, results, ciphers);
        return;
      }
      ghost var before, here := net.sockets, net.At();
      var entry, cipher := ScanVersion(net, host, port, retries, proxy, VERSIONS[i]);
      ExtendsTwice(old(net.sockets), before, net.sockets);
      assert (i + 1) * round == i * round + round;
      SweepNext(r, at, here.dials, net.dials, net.cancelled, results, ciphers, entry, cipher);
      SweptStep(r, here, 4 - i);
      MatchStep(results, ciphers, entry, cipher);
      results := results + [entry];
      if cipher.Some? {
        ciphers := ciphers + [cipher.value];
      }
    }
    SweptEnd(r, net.At());
  }

  lemma SweptStep(r: Route, at: Cursor, n: nat)
    requires n > 0
    ensures Swept(r, at, n) == Swept(r, Reach(r, at).next, n - 1)
  {
  }

  lemma SweptEnd(r: Route, at: Cursor)
    ensures Swept(r, at, 0) == at
  {
  }

  lemma MatchStep(results: seq<ScanResult>, ciphers: seq<string>, entry: ScanResult, cipher: Option<string>)
    requires CiphersMatch(results, ciphers) && IsSupported(entry) == cipher.Some?
    requires cipher.Some? ==> EndsWith(cipher.value, Labelled("", entry.protocol))
    ensures CiphersMatch(results + [entry], if cipher.Some? then ciphers + [cipher.value] else ciphers)
  {
    hide IsSupported, EndsWith, Labelled;
    assert (results + [entry])[..|results|] == results;
  }

  // ---- The session test ----

  // What an undisturbed session test finds: whether the second connection resumed
  // the first one's session, and the attempt whose socket stays behind.
  datatype Session = Session(resumed: bool, leak: Option<nat>)

  function SessionTest(r: Route, at: Cursor): Session {
    var first := Reach(r, at);
    if first.conn.None? then Session(false, None)
    else if Script(r.env, first.conn.value).handshakeErr.Some? then Session(false, first.conn)
    else if Script(r.env, first.conn.value).closeErr.Some? then Session(false, None)
    else
      var second := Reach(r, first.next).conn;
      if second.None? then Session(false, None)
      else if Script(r.env, second.value).handshakeErr.Some? then Session(false, second)
      else Session(Script(r.env, second.value).state.resumed, None)
  }

  // The first connection completes its handshake and closes cleanly.
  ghost predicate CleanFirst(r: Route, at: Cursor, j: nat) {
    Connects(r, at, j) && Script(r.env, j).handshakeErr.None? && Script(r.env, j).closeErr.None?
  }

  ghost predicate Resumes(r: Route, at: Cursor) {
    exists j: nat, k: nat ::
      && CleanFirst(r, at, j) && Connects(r, After(at, j), k)
      && Script(r.env, k).handshakeErr.None? && Script(r.env, k).state.resumed
  }

  ghost predicate LeavesBehind(r: Route, at: Cursor, k: nat) {
    || (Connects(r, at, k) && Script(r.env, k).handshakeErr.Some?)
    || (exists j: nat ::
          && CleanFirst(r, at, j) && Connects(r, After(at, j), k)
          && Script(r.env, k).handshakeErr.Some?)
  }

  lemma SecondConnects(r: Route, at: Cursor, j: nat)
    requires Reach(r, at).conn == Some(j)
    ensures Reach(r, at).next == After(at, j)
    ensures forall i: nat :: Connects(r, at, i) <==> i == j
    ensures forall k: nat :: Connects(r, After(at, j), k)
                        <==> Reach(r, Reach(r, at).next).conn == Some(k)
  {
    hide Connects, Works;
    ReachConnects(r, at);
    ReachConnects(r, Reach(r, at).next);
  }

  // The session test in terms of the connections it makes.
  lemma SessionIs(r: Route, at: Cursor)
    ensures SessionTest(r, at).resumed <==> Resumes(r, at)
    ensures forall k: nat :: SessionTest(r, at).leak == Some(k) <==> LeavesBehind(r, at, k)
  {
    ReachConnects(r, at);
    var first, second := Reach(r, at).conn, Reach(r, Reach(r, at).next).conn;
    assert first.Some? ==> r.env.dial(first.value).Connected?;
    assert second.Some? ==> r.env.dial(second.value).Connected?;
    hide Connects, Works, Reach;
    if first.Some? {
      SecondConnects(r, at, first.value);
      SessionSplit(r, at, first.value, second);
    }
  }

  lemma SessionSplit(r: Route, at: Cursor, j: nat, second: Option<nat>)
    requires r.env.dial(j).Connected? && (second.Some? ==> r.env.dial(second.value).Connected?)
    requires forall i: nat :: Connects(r, at, i) <==> i == j
    requires forall k: nat :: Connects(r, After(at, j), k) <==> second == Some(k)
    ensures var clean := Script(r.env, j).handshakeErr.None? && Script(r.env, j).closeErr.None?;
            && (Resumes(r, at) <==>
                  && clean && second.Some?
                  && Script(r.env, second.value).handshakeErr.None? && Script(r.env, second.value).state.resumed)
            && forall k: nat ::
                 LeavesBehind(r, at, k) <==>
                   || (k == j && Script(r.env, k).handshakeErr.Some?)
                   || (clean && second == Some(k) && Script(r.env, k).handshakeErr.Some?)
  {
    hide Connects, Works;
    var clean := Script(r.env, j).handshakeErr.None? && Script(r.env, j).closeErr.None?;
    assert forall i: nat :: CleanFirst(r, at, i) <==> i == j && clean by {
      assert Connects(r, at, j);
    }
    hide CleanFirst;
    if second.Some? {
      assert Connects(r, After(at, j), second.value);
    }
    if i: nat, k: nat :| CleanFirst(r, at, i) && Connects(r, After(at, i), k) {
      assert i == j && second == Some(k);
    }
  }

  // What stays behind has failed its handshake, and after a resumed session nothing
  // does.  When nothing stands in the way of the two connections, it is the first one's
  // socket if its handshake fails, the second one's if the first closes cleanly and the
  // second handshake fails, and otherwise none.
  lemma LeakCondition(r: Route, at: Cursor)
    ensures var session := SessionTest(r, at);
            && (session.resumed ==> session.leak.None?)
            && (session.leak.Some? ==>
                  var k := session.leak.value;
                  k >= at.dials && Works(r, k) && Script(r.env, k).handshakeErr.Some?)
    ensures Healthy(r) ==>
              var d := at.dials;
              && Works(r, d) && Works(r, d + 1)
              && SessionTest(r, at).leak ==
                   (if Script(r.env, d).handshakeErr.Some? then Some(d)
                    else if Script(r.env, d).closeErr.None? && Script(r.env, d + 1).handshakeErr.Some? then Some(d + 1)
                    else None)
  {
    if Healthy(r) {
      ReachHealthy(r, at);
      ReachHealthy(r, Reach(r, at).next);
    }
  }

  method DialAndHandshake(net: Net, host: string, port: int, retries: nat, proxy: Proxy)
    returns (conn: Conn?, err: Option<string>, state: ConnectionState)
    requires net.Valid()
    modifies net
    ensures net.Valid() && Extends(old(net.sockets), net.sockets) && (old(net.cancelled) ==> net.cancelled)
    ensures Quiet(net.env) && !old(net.cancelled) ==> !net.cancelled
    ensures conn == null ==> err.Some? && net.Open() == old(net.Open()) && net.failed == old(net.failed)
    ensures conn != null ==> && fresh(conn) && net.Owns(conn) && conn.born !in old(net.Open()) + old(net.failed)
                             && net.env.dial(conn.born) == Connected(conn.script)
                             && err == conn.script.handshakeErr && state == conn.script.state
                             && net.Open() == old(net.Open()) + (if conn.open then {conn.born} else {})
                             && net.failed == old(net.failed) + (if err.Some? then {conn.born} else {})
                             && (err.None? || !net.cancelled ==> conn.open)
    ensures !net.cancelled ==>
              var reached := Reach(RouteTo(net.env, host, port, retries, proxy), old(net.At()));
              net.At() == reached.next && reached.conn == if conn == null then None else Some(conn.born)
    ensures net.requests == old(net.requests) && net.datagrams == old(net.datagrams)
    ensures old(net.dials) <= net.dials <= old(net.dials) + retries + 1
  {
    hide JoinHostPort, Itoa, Succeeds, AskedFor, Connects, Extends, Reach, net.Open;
    conn, err := net.Tcp(host, port, retries, proxy);
    state := ConnectionState([], [], false, "");
    if err.None? {
      err, state := HandshakeContext(net, conn);
    }
  }

  // TestSessionResumption: a round whose dial succeeds and whose handshake fails
  // returns without closing its socket; every other way out leaves nothing open.
  method TestSessionResumption(net: Net, host: string, port: int, retries: nat, proxy: Proxy)
    returns (resumed: bool)
    requires net.Valid()
    modifies net
    ensures net.Valid() && Extends(old(net.sockets), net.sockets) && (old(net.cancelled) ==> net.cancelled)
    ensures Quiet(net.env) && !old(net.cancelled) ==> !net.cancelled
    // What stays open is a socket whose handshake failed, and without cancellation
    // each of those stays open.
    ensures old(net.Open()) <= net.Open() && old(net.failed) <= net.failed
    ensures net.Open() - old(net.Open()) <= net.failed - old(net.failed)
    ensures !net.cancelled ==> net.Open() - old(net.Open()) == net.failed - old(net.failed)
    ensures forall j, k :: j in net.failed - old(net.failed) && k in net.failed - old(net.failed) ==> j == k
    ensures resumed ==> net.Open() == old(net.Open()) && net.failed == old(net.failed)
    // Exactly which, and what is reported.
    ensures !net.cancelled ==>
              var session := SessionTest(RouteTo(net.env, host, port, retries, proxy), old(net.At()));
              resumed == session.resumed && net.Open() - old(net.Open()) == Just(session.leak)
    ensures !net.cancelled ==>
              var r := RouteTo(net.env, host, port, retries, proxy);
              && (resumed <==> Resumes(r, old(net.At())))
              && forall k: nat :: k in net.Open() - old(net.Open()) <==> LeavesBehind(r, old(net.At()), k)
    ensures net.requests == old(net.requests) && net.datagrams == old(net.datagrams)
    ensures old(net.dials) <= net.dials <= old(net.dials) + 2 * (retries + 1)
  {
    hide JoinHostPort, Itoa, Resumes, LeavesBehind, Connects, Extends, Reach, net.Open, net.Valid;
    SessionIs(RouteTo(net.env, host, port, retries, proxy), net.At());
    var conn1, err1, state1 := DialAndHandshake(net, host, port, retries, proxy);
    if err1.Some? {
      return false;
    }
    var closeErr := net.Close(conn1);
    if closeErr.Some? {
      return false;
    }
    ghost var before := net.sockets;
    var conn2, err2, state2 := DialAndHandshake(net, host, port, retries, proxy);
    ExtendsTwice(old(net.sockets), before, net.sockets);
    if err2.Some? {
      return false;
    }
    resumed := state2.resumed;
    closeErr := net.Close(conn2);
  }
}
