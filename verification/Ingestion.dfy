// ParseTargetsWithWarnings (target.go): what is offered by each source, in
// order, and when ingestion fails.

module Ingestion {
  import opened Prelude
  import opened GoStrings
  import opened Targets

  // Which inputs were given; an empty string means the source is absent.
  datatype Config = Config(
    hostport: string, endpoints: seq<string>, urls: seq<string>, file: string,
    hostnames: string, ports: string, strictParsing: bool)

  // The target file: it may fail to open, or fail after some lines.
  datatype FileInput = CannotOpen(reason: string) | Lines(lines: seq<string>, readError: Option<string>)

  datatype ParseResult = ParseResult(targets: seq<Target>, warnings: seq<string>)

  // ---- Specification ----

  // Sources in which the first bad entry fails the whole call.
  function Strict(parse: UrlParser, vals: seq<string>): Result<seq<Target>> {
    if vals == [] then Ok([])
    else
      match Strict(parse, vals[..|vals| - 1])
      case Err(e) => Err(e)
      case Ok(ts) =>
        match ParseUrlTarget(parse, vals[|vals| - 1])
        case Err(e) => Err(e)
        case Ok(t) => Ok(ts + [t])
  }

  function StrictVals(cfg: Config): seq<string> {
    (if cfg.hostport != "" then [cfg.hostport] else []) + cfg.endpoints + cfg.urls
  }

  predicate Skipped(line: string) {
    var text := TrimSpace(line);
    text == "" || text[0] == '#'
  }

  function Warning(file: string, lineNum: nat, reason: string): string {
    "file " + file + " line " + Itoa(lineNum) + ": " + reason
  }

  // File lines: a bad one is a warning, or fails the call under strict parsing.
  function FileLines(parse: UrlParser, file: string, strict: bool, lines: seq<string>): Result<ParseResult> {
    if lines == [] then Ok(ParseResult([], []))
    else
      match FileLines(parse, file, strict, lines[..|lines| - 1])
      case Err(e) => Err(e)
      case Ok(r) =>
        var line := lines[|lines| - 1];
        if Skipped(line) then Ok(r)
        else
          match ParseUrlTarget(parse, TrimSpace(line))
          case Ok(t) => Ok(r.(targets := r.targets + [t]))
          case Err(reason) =>
            var warning := Warning(file, |lines|, reason);
            if strict then Err(warning) else Ok(r.(warnings := r.warnings + [warning]))
  }

  function FromFile(parse: UrlParser, cfg: Config, input: FileInput): Result<ParseResult> {
    if cfg.file == "" then Ok(ParseResult([], []))
    else
      match input
      case CannotOpen(reason) => Err("failed to open target file '" + cfg.file + "': " + reason)
      case Lines(lines, readError) =>
        match FileLines(parse, cfg.file, cfg.strictParsing, lines)
        case Err(e) => Err(e)
        case Ok(r) =>
          if readError.Some? then Err("error reading target file '" + cfg.file + "': " + readError.value) else Ok(r)
  }

  // A port that is not a number counts as 443.
  function GridPort(portStr: string): int {
    match Atoi(TrimSpace(portStr))
    case Some(p) => p
    case None => 443
  }

  // One grid cell; an address that does not parse is passed over.
  function GridCell(parse: UrlParser, host: string, portStr: string): seq<Target> {
    match ParseUrlTarget(parse, JoinHostPort(host, Itoa(GridPort(portStr))))
    case Ok(t) => [t]
    case Err(_) => []
  }

  function GridRow(parse: UrlParser, host: string, ports: seq<string>): seq<Target> {
    if ports == [] || host == "" then []
    else GridRow(parse, host, ports[..|ports| - 1]) + GridCell(parse, host, ports[|ports| - 1])
  }

  function Grid(parse: UrlParser, hosts: seq<string>, ports: seq<string>): seq<Target> {
    if hosts == [] then []
    else Grid(parse, hosts[..|hosts| - 1], ports) + GridRow(parse, TrimSpace(hosts[|hosts| - 1]), ports)
  }

  function FromGrid(parse: UrlParser, cfg: Config): seq<Target> {
    if cfg.hostnames == "" then [] else Grid(parse, Split(cfg.hostnames, ','), Split(cfg.ports, ','))
  }

  // Everything offered for collection, in source order.
  function Offered(parse: UrlParser, cfg: Config, input: FileInput): Result<ParseResult> {
    match Strict(parse, StrictVals(cfg))
    case Err(e) => Err(e)
    case Ok(listed) =>
      match FromFile(parse, cfg, input)
      case Err(e) => Err(e)
      case Ok(r) => Ok(ParseResult(listed + r.targets + FromGrid(parse, cfg), r.warnings))
  }

  function Ingest(parse: UrlParser, cfg: Config, input: FileInput): Result<ParseResult> {
    match Offered(parse, cfg, input)
    case Err(e) => Err(e)
    case Ok(r) =>
      if r.targets == [] then Err("no valid targets provided")
      else Ok(ParseResult(FirstOccurrences(r.targets), r.warnings))
  }

  // ---- The implementation ----

  lemma StrictAppend(parse: UrlParser, vals: seq<string>, val: string)
    requires Strict(parse, vals).Ok?
    ensures Strict(parse, vals + [val])
         == match ParseUrlTarget(parse, val)
            case Ok(t) => Ok(Strict(parse, vals).value + [t])
            case Err(e) => Err(e)
  {
    hide ParseUrlTarget;
    assert (vals + [val])[..|vals|] == vals;
  }

  // One list of a strict source, after the sources before it.
  method AddEach(parse: UrlParser, vals: seq<string>, into: Collection, ghost before: seq<string>)
    returns (failure: Option<string>)
    requires WellBehaved(parse) && into.Valid() && Strict(parse, before) == Ok(into.offered)
    modifies into
    ensures into.Valid()
    ensures Strict(parse, before + vals)
         == match failure case Some(e) => Err(e) case None => Ok(into.offered)
  {
    hide ParseUrlTarget, FirstOccurrences, Strict;
    assert before + [] == before;
    for i := 0 to |vals|
      invariant into.Valid() && Strict(parse, before + vals[..i]) == Ok(into.offered)
    {
      ghost var done := before + vals[..i];
      assert before + vals[..i + 1] == done + [vals[i]];
      StrictAppend(parse, done, vals[i]);
      ParsedWellFormed(parse, vals[i]);
      var t := ParseUrlTarget(parse, vals[i]);
      if t.Err? {
        StrictStops(parse, done + [vals[i]], vals[i + 1..]);
        assert done + [vals[i]] + vals[i + 1..] == before + vals;
        return Some(t.message);
      }
      into.AddTarget(t.value);
    }
    assert vals[..|vals|] == vals;
    return None;
  }

  // -hostport, then every -endpoint, then every -url.
  method AddStrict(parse: UrlParser, cfg: Config, into: Collection) returns (failure: Option<string>)
    requires WellBehaved(parse) && into.Valid() && into.offered == []
    modifies into
    ensures into.Valid()
    ensures Strict(parse, StrictVals(cfg))
         == match failure case Some(e) => Err(e) case None => Ok(into.offered)
  {
    hide FirstOccurrences, ParseUrlTarget;
    var first := if cfg.hostport != "" then [cfg.hostport] else [];
    assert [] + first == first;
    failure := AddEach(parse, first, into, []);
    if failure.Some? {
      StrictStops(parse, first, cfg.endpoints);
      StrictStops(parse, first + cfg.endpoints, cfg.urls);
      return;
    }
    failure := AddEach(parse, cfg.endpoints, into, first);
    if failure.Some? {
      StrictStops(parse, first + cfg.endpoints, cfg.urls);
      return;
    }
    failure := AddEach(parse, cfg.urls, into, first + cfg.endpoints);
  }

  lemma {:induction false} StrictStops(parse: UrlParser, vals: seq<string>, more: seq<string>)
    requires Strict(parse, vals).Err?
    ensures Strict(parse, vals + more) == Strict(parse, vals)
  {
    if more == [] {
      assert vals + more == vals;
    } else {
      StrictStops(parse, vals, more[..|more| - 1]);
      assert (vals + more)[..|vals + more| - 1] == vals + more[..|more| - 1];
    }
  }

  lemma {:induction false} FileStops(parse: UrlParser, file: string, strict: bool,
                                    lines: seq<string>, more: seq<string>)
    requires FileLines(parse, file, strict, lines).Err?
    ensures FileLines(parse, file, strict, lines + more) == FileLines(parse, file, strict, lines)
  {
    if more == [] {
      assert lines + more == lines;
    } else {
      FileStops(parse, file, strict, lines, more[..|more| - 1]);
      assert (lines + more)[..|lines + more| - 1] == lines + more[..|more| - 1];
    }
  }

  lemma NoLines(parse: UrlParser, file: string, strict: bool)
    ensures FileLines(parse, file, strict, []) == Ok(ParseResult([], []))
  {
  }

  // One more line.
  lemma NextLine(parse: UrlParser, file: string, strict: bool, lines: seq<string>, n: nat)
    requires n < |lines| && FileLines(parse, file, strict, lines[..n]).Ok?
    ensures var r := FileLines(parse, file, strict, lines[..n]).value;
            var line := TrimSpace(lines[n]);
            FileLines(parse, file, strict, lines[..n + 1]) ==
              if line == "" || line[0] == '#' then Ok(r)
              else
                match ParseUrlTarget(parse, line)
                case Ok(t) => Ok(r.(targets := r.targets + [t]))
                case Err(reason) =>
                  var warning := Warning(file, n + 1, reason);
                  if strict then Err(warning) else Ok(r.(warnings := r.warnings + [warning]))
  {
    hide ParseUrlTarget, TrimSpace, Warning;
    assert lines[..n + 1][..n] == lines[..n];
  }

  method AddLines(parse: UrlParser, file: string, strict: bool, lines: seq<string>, into: Collection)
    returns (warnings: seq<string>, failure: Option<string>)
    requires WellBehaved(parse) && into.Valid()
    modifies into
    ensures into.Valid()
    ensures match failure
            case Some(e) => FileLines(parse, file, strict, lines) == Err(e)
            case None =>
              var r := FileLines(parse, file, strict, lines);
              r.Ok? && r.value.warnings == warnings && into.offered == old(into.offered) + r.value.targets
  {
    hide FileLines, ParseUrlTarget, Present, TrimSpace, Warning, WellFormed, into.Valid;
    warnings, failure := [], None;
    NoLines(parse, file, strict);
    var lineNum := 0;
    ghost var offered := into.offered;
    assert offered + [] == offered;
    while lineNum < |lines|
      invariant lineNum <= |lines| && into.Valid() && failure.None?
      invariant var r := FileLines(parse, file, strict, lines[..lineNum]);
                r.Ok? && r.value.warnings == warnings && into.offered == offered + r.value.targets
    {
      ghost var done := FileLines(parse, file, strict, lines[..lineNum]).value;
      NextLine(parse, file, strict, lines, lineNum);
      var line := TrimSpace(lines[lineNum]);
      lineNum := lineNum + 1;
      if line == "" || line[0] == '#' {
        continue;
      }
      ParsedWellFormed(parse, line);
      var t := ParseUrlTarget(parse, line);
      if t.Err? {
        var warning := Warning(file, lineNum, t.message);
        if strict {
          FileStops(parse, file, strict, lines[..lineNum], lines[lineNum..]);
          assert lines[..lineNum] + lines[lineNum..] == lines;
          failure := Some(warning);
          return;
        }
        warnings := warnings + [warning];
        continue;
      }
      into.AddTarget(t.value);
      assert offered + (done.targets + [t.value]) == (offered + done.targets) + [t.value];
    }
    assert lines[..|lines|] == lines;
  }

  lemma GridRowEmpty(parse: UrlParser, h: string)
    ensures GridRow(parse, h, []) == []
  {
  }

  lemma {:induction false} GridRowAppend(parse: UrlParser, h: string, ports: seq<string>, j: nat)
    requires h != "" && j < |ports|
    ensures GridRow(parse, h, ports[..j + 1]) == GridRow(parse, h, ports[..j]) + GridCell(parse, h, ports[j])
  {
    hide GridCell;
    assert ports[..j + 1][..j] == ports[..j];
  }

  method AddRow(parse: UrlParser, h: string, ports: seq<string>, into: Collection)
    requires WellBehaved(parse) && into.Valid() && h != ""
    modifies into
    ensures into.Valid() && into.offered == old(into.offered) + GridRow(parse, h, ports)
  {
    hide ParseUrlTarget, Present, TrimSpace, Atoi, Itoa, JoinHostPort, GridRow, WellFormed, into.Valid;
    ghost var above := into.offered;
    assert above + [] == above;
    GridRowEmpty(parse, h);
    for j := 0 to |ports|
      invariant into.Valid() && into.offered == above + GridRow(parse, h, ports[..j])
    {
      GridRowAppend(parse, h, ports, j);
      var p := Atoi(TrimSpace(ports[j]));
      var targetAddr := JoinHostPort(h, Itoa(if p.Some? then p.value else 443));
      ParsedWellFormed(parse, targetAddr);
      var t := ParseUrlTarget(parse, targetAddr);
      if t.Ok? {
        into.AddTarget(t.value);
      }
    }
    assert ports[..|ports|] == ports;
  }

  method AddGrid(parse: UrlParser, hosts: seq<string>, ports: seq<string>, into: Collection)
    requires WellBehaved(parse) && into.Valid()
    modifies into
    ensures into.Valid() && into.offered == old(into.offered) + Grid(parse, hosts, ports)
  {
    hide FirstOccurrences, TrimSpace, GridCell;
    ghost var offered := into.offered;
    assert offered + [] == offered;
    for i := 0 to |hosts|
      invariant into.Valid() && into.offered == offered + Grid(parse, hosts[..i], ports)
    {
      assert hosts[..i + 1][..i] == hosts[..i];
      var h := TrimSpace(hosts[i]);
      if h == "" {
        continue;
      }
      AddRow(parse, h, ports, into);
    }
    assert hosts[..|hosts|] == hosts;
  }

  // The file's share, and its errors.
  method AddFile(parse: UrlParser, cfg: Config, input: FileInput, into: Collection)
    returns (warnings: seq<string>, failure: Option<string>)
    requires WellBehaved(parse) && into.Valid()
    modifies into
    ensures into.Valid()
    ensures match failure
            case Some(e) => FromFile(parse, cfg, input) == Err(e)
            case None =>
              var r := FromFile(parse, cfg, input);
              r.Ok? && r.value.warnings == warnings && into.offered == old(into.offered) + r.value.targets
  {
    hide FileLines, FirstOccurrences;
    assert into.offered + [] == into.offered;
    warnings, failure := [], None;
    if cfg.file != "" {
      match input {
        case CannotOpen(reason) =>
          failure := Some("failed to open target file '" + cfg.file + "': " + reason);
        case Lines(lines, readError) =>
          warnings, failure := AddLines(parse, cfg.file, cfg.strictParsing, lines, into);
          if failure.None? && readError.Some? {
            failure := Some("error reading target file '" + cfg.file + "': " + readError.value);
          }
      }
    }
  }

  // All five sources, then the check that there was something.
  method Collect(parse: UrlParser, cfg: Config, input: FileInput)
    returns (result: Result<ParseResult>)
    requires WellBehaved(parse)
    ensures result == Ingest(parse, cfg, input)
  {
    hide FirstOccurrences, Grid, FromFile, Strict, StrictVals, Split;
    var into := new Collection();
    var failure := AddStrict(parse, cfg, into);
    if failure.Some? {
      return Err(failure.value);
    }
    var warnings;
    warnings, failure := AddFile(parse, cfg, input, into);
    if failure.Some? {
      return Err(failure.value);
    }
    ghost var ungridded := into.offered;
    assert ungridded + [] == ungridded;
    if cfg.hostnames != "" {
      AddGrid(parse, Split(cfg.hostnames, ','), Split(cfg.ports, ','), into);
    }
    assert into.offered == ungridded + FromGrid(parse, cfg);
    FirstStays(into.offered);
    if |into.targets| == 0 {
      return Err("no valid targets provided");
    }
    return Ok(ParseResult(into.targets, warnings));
  }
}
