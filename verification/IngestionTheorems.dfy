// What ingestion promises: stable deduplication, the error policy of each source,
// line accounting and the Cartesian grid.

module IngestionTheorems {
  import opened GoStrings
  import opened Targets
  import opened Ingestion

  // ---- Deduplication ----

  ghost predicate Distinct(ts: seq<Target>) {
    forall i, j :: 0 <= i < j < |ts| ==> !SameEndpoint(ts[i], ts[j])
  }

  // Nothing offered is missing, nothing is kept twice, and what is kept is among
  // what was offered.
  lemma {:induction false} DedupComplete(ts: seq<Target>)
    ensures Distinct(FirstOccurrences(ts))
    ensures forall t :: Present(ts, t) <==> Present(FirstOccurrences(ts), t)
    ensures forall t :: t in FirstOccurrences(ts) ==> t in ts
  {
    if ts != [] {
      var init, last := ts[..|ts| - 1], ts[|ts| - 1];
      DedupComplete(init);
      var kept := FirstOccurrences(init);
      assert ts == init + [last];
      forall t ensures Present(ts, t) <==> Present(init, t) || SameEndpoint(last, t) {
        PresentAppend(init, last, t);
      }
      if Present(init, last) {
        forall t | SameEndpoint(last, t) ensures Present(init, t) { PresentSame(init, last, t); }
        assert FirstOccurrences(ts) == kept;
      } else {
        forall t ensures Present(kept + [last], t) <==> Present(kept, t) || SameEndpoint(last, t) {
          PresentAppend(kept, last, t);
        }
        assert !Present(kept, last);
      }
    }
  }

  lemma PresentAppend(ts: seq<Target>, u: Target, t: Target)
    ensures Present(ts + [u], t) <==> Present(ts, t) || SameEndpoint(u, t)
  {
    var all := ts + [u];
    assert all[|ts|] == u;
    assert forall i :: 0 <= i < |ts| ==> all[i] == ts[i];
  }

  lemma PresentSame(ts: seq<Target>, u: Target, t: Target)
    requires Present(ts, u) && SameEndpoint(u, t)
    ensures Present(ts, t)
  {
    var i :| 0 <= i < |ts| && SameEndpoint(ts[i], u);
    assert SameEndpoint(ts[i], t);
  }

  function Repeats(before: seq<Target>, ts: seq<Target>): nat {
    if ts == [] then 0
    else
      var init := ts[..|ts| - 1];
      Repeats(before, init) + if Present(before + init, ts[|ts| - 1]) then 1 else 0
  }

  // Later offers never disturb what is already kept, and each either extends it
  // or repeats an earlier one.
  lemma {:induction false} DedupExtends(before: seq<Target>, ts: seq<Target>)
    ensures FirstOccurrences(before) <= FirstOccurrences(before + ts)
    ensures |FirstOccurrences(before + ts)| + Repeats(before, ts) == |FirstOccurrences(before)| + |ts|
  {
    if ts == [] {
      assert before + ts == before;
    } else {
      DedupExtends(before, ts[..|ts| - 1]);
      assert (before + ts)[..|before + ts| - 1] == before + ts[..|ts| - 1];
    }
  }

  // ---- Error policy ----

  // Hostport, endpoints and URLs: all of them parse, in order, or the call fails
  // with the error of the first that does not.
  lemma {:induction false} StrictPolicy(parse: UrlParser, vals: seq<string>)
    ensures match Strict(parse, vals)
            case Ok(ts) =>
              |ts| == |vals| && forall i :: 0 <= i < |vals| ==> ParseUrlTarget(parse, vals[i]) == Ok(ts[i])
            case Err(e) =>
              exists k :: 0 <= k < |vals| && ParseUrlTarget(parse, vals[k]) == Err(e)
                && forall i :: 0 <= i < k ==> ParseUrlTarget(parse, vals[i]).Ok?
  {
    hide ParseUrlTarget;
    if vals != [] {
      var init := vals[..|vals| - 1];
      StrictPolicy(parse, init);
      assert forall i :: 0 <= i < |init| ==> init[i] == vals[i];
      match Strict(parse, init)
      case Err(e) =>
        var k :| 0 <= k < |init| && ParseUrlTarget(parse, init[k]) == Err(e)
          && forall i :: 0 <= i < k ==> ParseUrlTarget(parse, init[i]).Ok?;
        assert ParseUrlTarget(parse, vals[k]) == Err(e);
      case Ok(_) =>
        assert forall i :: 0 <= i < |vals| - 1 ==> ParseUrlTarget(parse, vals[i]).Ok?;
    }
  }

  ghost predicate BadLine(parse: UrlParser, line: string) {
    !Skipped(line) && ParseUrlTarget(parse, TrimSpace(line)).Err?
  }

  // A file pass fails exactly when parsing is strict and some line is bad.
  lemma {:induction false} FilePolicy(parse: UrlParser, file: string, strict: bool, lines: seq<string>)
    ensures FileLines(parse, file, strict, lines).Err?
        <==> strict && exists k :: 0 <= k < |lines| && BadLine(parse, lines[k])
  {
    hide ParseUrlTarget, Skipped, TrimSpace, Warning;
    if lines != [] {
      var init := lines[..|lines| - 1];
      FilePolicy(parse, file, strict, init);
      assert forall k :: 0 <= k < |init| ==> init[k] == lines[k];
      if j :| 0 <= j < |init| && BadLine(parse, init[j]) {
        assert BadLine(parse, lines[j]);
      }
      assert BadLine(parse, lines[|lines| - 1])
        <==> !Skipped(lines[|lines| - 1]) && ParseUrlTarget(parse, TrimSpace(lines[|lines| - 1])).Err?;
    }
  }

  function SkippedCount(lines: seq<string>): nat {
    if lines == [] then 0
    else SkippedCount(lines[..|lines| - 1]) + if Skipped(lines[|lines| - 1]) then 1 else 0
  }

  lemma {:induction false} LineTally(parse: UrlParser, file: string, strict: bool, lines: seq<string>)
    requires FileLines(parse, file, strict, lines).Ok?
    ensures var r := FileLines(parse, file, strict, lines).value;
            |lines| == SkippedCount(lines) + |r.warnings| + |r.targets|
  {
    hide ParseUrlTarget, Skipped, TrimSpace, Warning;
    if lines != [] {
      LineTally(parse, file, strict, lines[..|lines| - 1]);
    }
  }

  // Every line of a completed pass is skipped, warned about, new or a repeat.
  lemma LineAccounting(parse: UrlParser, file: string, strict: bool, lines: seq<string>, before: seq<Target>)
    requires FileLines(parse, file, strict, lines).Ok?
    ensures var r := FileLines(parse, file, strict, lines).value;
            var added := |FirstOccurrences(before + r.targets)| - |FirstOccurrences(before)|;
            |lines| == SkippedCount(lines) + |r.warnings| + added + Repeats(before, r.targets)
  {
    LineTally(parse, file, strict, lines);
    DedupExtends(before, FileLines(parse, file, strict, lines).value.targets);
  }

  ghost predicate WarnedLine(parse: UrlParser, file: string, lines: seq<string>, k: nat, warning: string) {
    && k < |lines| && BadLine(parse, lines[k])
    && warning == Warning(file, k + 1, ParseUrlTarget(parse, TrimSpace(lines[k])).message)
  }

  ghost predicate GoodLine(parse: UrlParser, lines: seq<string>, k: nat, t: Target) {
    k < |lines| && !Skipped(lines[k]) && ParseUrlTarget(parse, TrimSpace(lines[k])) == Ok(t)
  }

  lemma {:induction false} LineKept(parse: UrlParser, file: string, lines: seq<string>, line: string)
    ensures forall k: nat, w :: WarnedLine(parse, file, lines, k, w) ==> WarnedLine(parse, file, lines + [line], k, w)
    ensures forall k: nat, t :: GoodLine(parse, lines, k, t) ==> GoodLine(parse, lines + [line], k, t)
  {
    hide ParseUrlTarget, Skipped, TrimSpace, Warning;
    assert forall k :: 0 <= k < |lines| ==> (lines + [line])[k] == lines[k];
  }

  // Each warning names its own line by number and each target comes from a line.
  ghost predicate Traced(parse: UrlParser, file: string, lines: seq<string>, r: ParseResult) {
    && (forall w :: w in r.warnings ==> exists k: nat :: WarnedLine(parse, file, lines, k, w))
    && (forall t :: t in r.targets ==> exists k: nat :: GoodLine(parse, lines, k, t))
  }

  lemma {:induction false} TracedKept(parse: UrlParser, file: string, lines: seq<string>, line: string, r: ParseResult)
    requires Traced(parse, file, lines, r)
    ensures Traced(parse, file, lines + [line], r)
  {
    hide WarnedLine, GoodLine;
    LineKept(parse, file, lines, line);
    forall w | w in r.warnings ensures exists k: nat :: WarnedLine(parse, file, lines + [line], k, w) {
      var k: nat :| WarnedLine(parse, file, lines, k, w);
      assert WarnedLine(parse, file, lines + [line], k, w);
    }
    forall t | t in r.targets ensures exists k: nat :: GoodLine(parse, lines + [line], k, t) {
      var k: nat :| GoodLine(parse, lines, k, t);
      assert GoodLine(parse, lines + [line], k, t);
    }
  }

  lemma {:induction false} LineOrigins(parse: UrlParser, file: string, strict: bool, lines: seq<string>)
    requires FileLines(parse, file, strict, lines).Ok?
    ensures Traced(parse, file, lines, FileLines(parse, file, strict, lines).value)
  {
    hide ParseUrlTarget, Skipped, TrimSpace, Warning, WarnedLine, GoodLine;
    if lines != [] {
      var n := |lines| - 1;
      LineOrigins(parse, file, strict, lines[..n]);
      assert lines[..n] + [lines[n]] == lines;
      TracedKept(parse, file, lines[..n], lines[n], FileLines(parse, file, strict, lines[..n]).value);
      LastLine(parse, file, lines);
    }
  }

  lemma LastLine(parse: UrlParser, file: string, lines: seq<string>)
    requires lines != []
    ensures var n := |lines| - 1;
            var p := ParseUrlTarget(parse, TrimSpace(lines[n]));
            !Skipped(lines[n]) ==>
              if p.Ok? then GoodLine(parse, lines, n, p.value)
              else WarnedLine(parse, file, lines, n, Warning(file, |lines|, p.message))
  {
    hide ParseUrlTarget, Skipped, TrimSpace, Warning;
  }

  // ---- The grid ----

  ghost predicate CellParses(parse: UrlParser, host: string, portStr: string) {
    host != "" && GridCell(parse, host, portStr) != []
  }

  lemma {:induction false} RowIndex(parse: UrlParser, host: string, ports: seq<string>)
    requires forall j :: 0 <= j < |ports| ==> CellParses(parse, host, ports[j])
    ensures var row := GridRow(parse, host, ports);
            |row| == |ports| && forall j :: 0 <= j < |ports| ==> [row[j]] == GridCell(parse, host, ports[j])
  {
    hide GridCell;
    if ports != [] {
      assert CellParses(parse, host, ports[|ports| - 1]);
      RowIndex(parse, host, ports[..|ports| - 1]);
      CellSize(parse, host, ports[|ports| - 1]);
    }
  }

  lemma CellSize(parse: UrlParser, host: string, portStr: string)
    ensures |GridCell(parse, host, portStr)| <= 1
  {
    hide ParseUrlTarget, JoinHostPort, GridPort;
  }

  ghost predicate AllParse(parse: UrlParser, hosts: seq<string>, ports: seq<string>) {
    forall i, j :: 0 <= i < |hosts| && 0 <= j < |ports| ==> CellParses(parse, TrimSpace(hosts[i]), ports[j])
  }

  lemma LastRow(parse: UrlParser, hosts: seq<string>, ports: seq<string>)
    requires hosts != [] && AllParse(parse, hosts, ports)
    ensures AllParse(parse, hosts[..|hosts| - 1], ports)
    ensures var host := TrimSpace(hosts[|hosts| - 1]);
            var row := GridRow(parse, host, ports);
            |row| == |ports| && forall j :: 0 <= j < |ports| ==> [row[j]] == GridCell(parse, host, ports[j])
  {
    hide TrimSpace, CellParses, GridCell, GridRow;
    RowIndex(parse, TrimSpace(hosts[|hosts| - 1]), ports);
  }

  lemma {:induction false} GridSize(parse: UrlParser, hosts: seq<string>, ports: seq<string>)
    requires AllParse(parse, hosts, ports)
    ensures |Grid(parse, hosts, ports)| == |hosts| * |ports|
  {
    hide TrimSpace, AllParse, GridCell, GridRow;
    if hosts != [] {
      LastRow(parse, hosts, ports);
      GridSize(parse, hosts[..|hosts| - 1], ports);
      assert |hosts| * |ports| == (|hosts| - 1) * |ports| + |ports|;
    }
  }

  // When every cell parses, the grid is the Cartesian product, host by host.
  lemma {:induction false} GridIndex(parse: UrlParser, hosts: seq<string>, ports: seq<string>,
                                     i: nat, j: nat, k: nat)
    requires AllParse(parse, hosts, ports) && i < |hosts| && j < |ports| && k == i * |ports| + j
    ensures k < |Grid(parse, hosts, ports)|
    ensures [Grid(parse, hosts, ports)[k]] == GridCell(parse, TrimSpace(hosts[i]), ports[j])
  {
    hide TrimSpace, AllParse, GridCell, CellParses, GridRow;
    var last := |hosts| - 1;
    LastRow(parse, hosts, ports);
    GridSize(parse, hosts[..last], ports);
    var above := Grid(parse, hosts[..last], ports);
    assert |above| == last * |ports|;
    if i < last {
      GridIndex(parse, hosts[..last], ports, i, j, k);
    }
  }

  // ---- Endpoints ----

  // What a URL's pieces become: a given port is taken as written; without one the
  // default is 80 for plain http and 443 otherwise; the path begins with a slash.
  lemma EndpointDefaults(parse: UrlParser, val: string)
    requires WellBehaved(parse) && ParseUrlTarget(parse, val).Ok?
    ensures var t := ParseUrlTarget(parse, val).value;
            var raw := TrimSpace(val);
            var u := parse(if Contains(raw, "://") then raw else "https://" + raw);
            && u.Ok? && t.host == u.value.hostname != "" && t.httpPath == u.value.requestUri && t.rawTarget == raw
            && (u.value.port == "" ==> t.port == if u.value.scheme == "http" then 80 else 443)
            && (forall p: nat :: u.value.port == Digits(p) ==> t.port == p)
            && WellFormed(t)
  {
    hide TrimSpace, Contains, Digits;
    var raw := TrimSpace(val);
    var u := parse(if Contains(raw, "://") then raw else "https://" + raw).value;
    forall p: nat | u.port == Digits(p) ensures Atoi(u.port) == InRange(p) {
      AtoiDigits(Digits(p));
      DecimalRoundTrip(p);
    }
  }

  // A host with a port written as a number is accepted if and only if the number fits
  // a 64-bit integer, whether or not it fits 16 bits.
  lemma WrittenPort(parse: UrlParser, val: string, p: nat)
    requires var raw := TrimSpace(val);
             var u := parse(if Contains(raw, "://") then raw else "https://" + raw);
             u.Ok? && u.value.hostname != "" && u.value.port == Digits(p)
    ensures ParseUrlTarget(parse, val).Ok? <==> p <= MAX_INT64
    ensures ParseUrlTarget(parse, val).Ok? ==> ParseUrlTarget(parse, val).value.port == p
  {
    hide TrimSpace, Contains, Digits;
    AtoiDigits(Digits(p));
    DecimalRoundTrip(p);
  }
}
