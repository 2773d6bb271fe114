// Target ingestion (target.go): five ordered sources, an error policy for each,
// and deduplication through a string-keyed map.

module Targets {
  import opened GoStrings

  datatype Target = Target(host: string, port: int, httpPath: string, rawTarget: string)

  datatype Result<+T> = Ok(value: T) | Err(message: string)

  // What url.Parse yields of a URL: Scheme, Hostname(), Port(), RequestURI().
  datatype Url = Url(scheme: string, hostname: string, port: string, requestUri: string)

  type UrlParser = string -> Result<Url>

  // The part of url.Parse's behaviour relied on: a host never contains a slash, and
  // the request path of a URL with a host begins with one.
  ghost predicate WellBehaved(parse: UrlParser) {
    forall s: string ::
      match parse(s)
      case Err(_) => true
      case Ok(u) => u.hostname != "" ==> '/' !in u.hostname && "/" <= u.requestUri
  }

  // ParseURLTarget.
  function ParseUrlTarget(parse: UrlParser, val: string): Result<Target> {
    var raw := TrimSpace(val);
    match parse(if Contains(raw, "://") then raw else "https://" + raw)
    case Err(reason) => Err("invalid target URL '" + raw + "': " + reason)
    case Ok(u) =>
      if u.hostname == "" then Err("host cannot be empty in '" + raw + "'")
      else if u.port == "" then
        Ok(Target(u.hostname, if u.scheme == "http" then 80 else 443, u.requestUri, raw))
      else
        match Atoi(u.port)
        case None => Err("invalid port in '" + raw + "'")
        case Some(p) => Ok(Target(u.hostname, p, u.requestUri, raw))
  }

  lemma ParsedWellFormed(parse: UrlParser, val: string)
    requires WellBehaved(parse)
    ensures var t := ParseUrlTarget(parse, val); t.Ok? ==> WellFormed(t.value)
  {
    hide Atoi, TrimSpace, Contains;
  }

  predicate WellFormed(t: Target) {
    '/' !in t.host && "/" <= t.httpPath
  }

  // ---- Deduplication ----

  predicate SameEndpoint(a: Target, b: Target) {
    a.host == b.host && a.port == b.port && a.httpPath == b.httpPath
  }

  predicate Present(ts: seq<Target>, t: Target) {
    exists i :: 0 <= i < |ts| && SameEndpoint(ts[i], t)
  }

  // Plain stable deduplication: whatever has no equal before it stays, in order.
  function FirstOccurrences(ts: seq<Target>): seq<Target> {
    if ts == [] then []
    else
      var init, t := ts[..|ts| - 1], ts[|ts| - 1];
      FirstOccurrences(init) + if Present(init, t) then [] else [t]
  }

  lemma NextOccurrence(ts: seq<Target>, t: Target)
    ensures FirstOccurrences(ts + [t]) == FirstOccurrences(ts) + if Present(ts, t) then [] else [t]
  {
    assert (ts + [t])[..|ts|] == ts;
  }

  lemma {:induction false} FirstStays(ts: seq<Target>)
    ensures FirstOccurrences(ts) == [] <==> ts == []
  {
    if |ts| == 1 {
      assert ts[..0] == [];
    } else if ts != [] {
      FirstStays(ts[..|ts| - 1]);
    }
  }

  function Key(t: Target): string {
    t.host + ":" + Itoa(t.port) + t.httpPath
  }

  lemma KeyOfSame(a: Target, b: Target)
    requires SameEndpoint(a, b)
    ensures Key(a) == Key(b)
  {
  }

  lemma ItoaNoSlash(n: int)
    ensures '/' !in Itoa(n) && ':' !in Itoa(n)
  {
    forall ch | ch in Itoa(n) ensures ch == '-' || IsDigit(ch) { ItoaChars(n, ch); }
  }

  lemma KeyPath(t: Target)
    requires WellFormed(t)
    ensures var cut := |t.host| + 1 + |Itoa(t.port)|;
            && IndexByte(Key(t), '/') == cut
            && Key(t)[..cut] == t.host + [':'] + Itoa(t.port) && Key(t)[cut..] == t.httpPath
  {
    ItoaNoSlash(t.port);
    var pre := t.host + [':'] + Itoa(t.port);
    assert Key(t) == pre + ['/'] + t.httpPath[1..];
    FirstIndexAt(pre, '/', t.httpPath[1..]);
  }

  lemma HostPortInjective(host: string, port: int, host': string, port': int)
    requires host + [':'] + Itoa(port) == host' + [':'] + Itoa(port')
    ensures host == host' && port == port'
  {
    hide Itoa, LastIndexByte;
    var x, y := host + [':'] + Itoa(port), host' + [':'] + Itoa(port');
    ItoaNoSlash(port);
    ItoaNoSlash(port');
    LastIndexAt(host, ':', Itoa(port));
    LastIndexAt(host', ':', Itoa(port'));
    assert host == x[..|host|] && host' == y[..|host'|];
    assert Itoa(port) == x[|host| + 1..] && Itoa(port') == y[|host'| + 1..];
    ItoaInjective(port, port');
  }

  // The map key tells any two endpoints apart, whatever colons their hosts hold.
  lemma KeyInjective(a: Target, b: Target)
    requires WellFormed(a) && WellFormed(b) && Key(a) == Key(b)
    ensures SameEndpoint(a, b)
  {
    hide Key, Itoa, IndexByte;
    KeyPath(a);
    KeyPath(b);
    HostPortInjective(a.host, a.port, b.host, b.port);
  }

  class Collection {
    var seen: map<string, bool>
    var targets: seq<Target>
    ghost var offered: seq<Target>

    ghost predicate Valid()
      reads this
    {
      && (forall t :: t in offered ==> WellFormed(t) && Key(t) in seen && seen[Key(t)])
      && (forall k :: k in seen ==> exists t :: t in offered && Key(t) == k)
      && targets == FirstOccurrences(offered)
    }

    constructor ()
      ensures Valid() && offered == [] && targets == []
    {
      seen, targets, offered := map[], [], [];
    }

    // The map knows a target's key exactly when an equal target was offered.
    lemma SeenPresent(t: Target)
      requires Valid() && WellFormed(t)
      ensures Key(t) in seen && seen[Key(t)] <==> Present(offered, t)
      ensures Key(t) in seen ==> seen[Key(t)]
    {
      hide Key, FirstOccurrences;
      if Key(t) in seen {
        var u :| u in offered && Key(u) == Key(t);
        KeyInjective(u, t);
      }
      forall i | 0 <= i < |offered| && SameEndpoint(offered[i], t) ensures Key(offered[i]) == Key(t) {
        KeyOfSame(offered[i], t);
      }
    }

    // The addTarget closure.
    method AddTarget(t: Target)
      requires Valid() && WellFormed(t)
      modifies this
      ensures Valid() && offered == old(offered) + [t]
      ensures targets == if Present(old(offered), t) then old(targets) else old(targets) + [t]
    {
      hide Key, WellFormed, Present, FirstOccurrences;
      var key := Key(t);
      SeenPresent(t);
      NextOccurrence(offered, t);
      if !(key in seen && seen[key]) {
        seen := seen[key := true];
        targets := targets + [t];
      }
      offered := offered + [t];
    }
  }
}
