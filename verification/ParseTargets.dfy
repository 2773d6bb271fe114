// ParseTargetsWithWarnings (target.go) over the whole configuration: which targets
// come out, in which order, with which warnings, and when the call fails.

module ParseTargets {
  import opened Prelude
  import opened GoStrings
  import opened Targets
  import opened Ingestion
  import opened IngestionTheorems

  // ---- Places of a configuration ----

  // A place where something is given: the hostport (source 0), the i-th endpoint (1),
  // URL (2) or line of the file (3), or the j-th port for the i-th host (4).
  datatype Place = Place(source: nat, i: nat, j: nat)

  predicate Before(p: Place, q: Place) {
    || p.source < q.source
    || (p.source == q.source && (p.i < q.i || (p.i == q.i && p.j < q.j)))
  }

  function Good(r: Result<Target>): Option<Target> {
    if r.Ok? then Some(r.value) else None
  }

  // A line of the file that is neither blank nor a comment.
  function Line(cfg: Config, input: FileInput, i: nat): Option<string> {
    if cfg.file != "" && input.Lines? && i < |input.lines| then
      var text := TrimSpace(input.lines[i]);
      if text != "" && text[0] != '#' then Some(text) else None
    else None
  }

  // The address of a grid cell: a port that is no number counts as 443, and a blank
  // host has no cells.
  function Cell(cfg: Config, i: nat, j: nat): Option<string> {
    var hosts, ports := Split(cfg.hostnames, ','), Split(cfg.ports, ',');
    if cfg.hostnames != "" && i < |hosts| && j < |ports| && TrimSpace(hosts[i]) != "" then
      var port := Atoi(TrimSpace(ports[j]));
      Some(JoinHostPort(TrimSpace(hosts[i]), if port.Some? then Itoa(port.value) else "443"))
    else None
  }

  // What is given at a place.
  function Given(cfg: Config, input: FileInput, p: Place): Option<string> {
    if p.source == 4 then Cell(cfg, p.i, p.j)
    else if p.j > 0 then None
    else if p.source == 0 then if p.i == 0 && cfg.hostport != "" then Some(cfg.hostport) else None
    else if p.source == 1 then if p.i < |cfg.endpoints| then Some(cfg.endpoints[p.i]) else None
    else if p.source == 2 then if p.i < |cfg.urls| then Some(cfg.urls[p.i]) else None
    else if p.source == 3 then Line(cfg, input, p.i)
    else None
  }

  // The target a place yields, and the warning.
  function Yields(parse: UrlParser, cfg: Config, input: FileInput): Place -> Option<Target> {
    p => match Given(cfg, input, p)
         case None => None
         case Some(text) => Good(ParseUrlTarget(parse, text))
  }

  function Warns(parse: UrlParser, cfg: Config, input: FileInput): Place -> Option<string> {
    p => match Given(cfg, input, p)
         case None => None
         case Some(text) =>
           var r := ParseUrlTarget(parse, text);
           if p.source == 3 && r.Err? then
             Some("file " + cfg.file + " line " + Itoa(p.i + 1) + ": " + r.message)
           else None
  }

  predicate Bad(parse: UrlParser, cfg: Config, input: FileInput, p: Place) {
    var text := Given(cfg, input, p);
    text.Some? && ParseUrlTarget(parse, text.value).Err?
  }

  // ---- What the call promises ----

  // These values stand at these places, in the order of the places.
  ghost predicate Placed<T>(y: Place -> Option<T>, ts: seq<T>, ps: seq<Place>) {
    && |ts| == |ps|
    && (forall k :: 0 <= k < |ts| ==> y(ps[k]) == Some(ts[k]))
    && (forall k, l :: 0 <= k < l < |ps| ==> Before(ps[k], ps[l]))
  }

  ghost predicate Complete<T>(y: Place -> Option<T>, ps: seq<Place>) {
    forall p: Place :: y(p).Some? ==> p in ps
  }

  // Every target given anywhere is there, once, from the first place that gives it.
  ghost predicate Kept(y: Place -> Option<Target>, ts: seq<Target>, ps: seq<Place>) {
    && Placed(y, ts, ps) && Distinct(ts)
    && forall p: Place :: y(p).Some? ==> Represented(ts, ps, p, y(p).value)
  }

  ghost predicate Represented(ts: seq<Target>, ps: seq<Place>, p: Place, t: Target) {
    exists k :: 0 <= k < |ts| && k < |ps| && SameEndpoint(ts[k], t) && (ps[k] == p || Before(ps[k], p))
  }

  ghost predicate FileFails(parse: UrlParser, cfg: Config, input: FileInput) {
    && cfg.file != ""
    && (|| input.CannotOpen?
        || input.readError.Some?
        || (cfg.strictParsing && exists p: Place :: p.source == 3 && Bad(parse, cfg, input, p)))
  }

  // A bad hostport, endpoint or URL, a file that cannot be read or, under strict
  // parsing, has a bad line, or nothing given that parses.
  ghost predicate Fails(parse: UrlParser, cfg: Config, input: FileInput) {
    || (exists p: Place :: p.source < 3 && Bad(parse, cfg, input, p))
    || FileFails(parse, cfg, input)
    || (forall p: Place :: Yields(parse, cfg, input)(p).None?)
  }

  ghost predicate FirstBad(parse: UrlParser, cfg: Config, input: FileInput, p: Place) {
    Bad(parse, cfg, input, p) && forall q: Place :: Before(q, p) ==> !Bad(parse, cfg, input, q)
  }

  // The message of a failure: of the first bad entry, else of the file, else of there
  // being nothing.
  ghost predicate Explains(parse: UrlParser, cfg: Config, input: FileInput, message: string) {
    if exists p: Place :: p.source < 3 && Bad(parse, cfg, input, p) then
      exists p: Place ::
        && p.source < 3 && FirstBad(parse, cfg, input, p)
        && message == ParseUrlTarget(parse, Given(cfg, input, p).value).message
    else if !FileFails(parse, cfg, input) then message == "no valid targets provided"
    else if input.CannotOpen? then message == "failed to open target file '" + cfg.file + "': " + input.reason
    else if cfg.strictParsing && exists p: Place :: p.source == 3 && Bad(parse, cfg, input, p) then
      exists p: Place ::
        p.source == 3 && FirstBad(parse, cfg, input, p) && Warns(parse, cfg, input)(p) == Some(message)
    else
      && input.readError.Some?
      && message == "error reading target file '" + cfg.file + "': " + input.readError.value
  }

  // ---- Walking through the places in order ----

  // Everything before q has been seen.
  ghost predicate SeenTo<T>(y: Place -> Option<T>, q: Place, ts: seq<T>, ps: seq<Place>) {
    && Placed(y, ts, ps)
    && (forall k :: 0 <= k < |ps| ==> Before(ps[k], q))
    && (forall p: Place :: Before(p, q) && y(p).Some? ==> p in ps)
  }

  ghost predicate Seen<T>(y: Place -> Option<T>, q: Place, ts: seq<T>) {
    exists ps: seq<Place> :: SeenTo(y, q, ts, ps)
  }

  function Opt<T>(x: Option<T>): seq<T> {
    if x.Some? then [x.value] else []
  }

  lemma BeforeOrder(p: Place, q: Place, r: Place)
    ensures p == q || Before(p, q) || Before(q, p)
    ensures Before(p, q) && Before(q, r) ==> Before(p, r)
  {
  }

  lemma PlacedNext<T>(y: Place -> Option<T>, q: Place, t: T, ts: seq<T>, ps: seq<Place>)
    requires Placed(y, ts, ps) && y(q) == Some(t) && forall k :: 0 <= k < |ps| ==> Before(ps[k], q)
    ensures Placed(y, ts + [t], ps + [q])
  {
    hide Before;
  }

  lemma BeforeNext(q: Place, next: Place, ps: seq<Place>)
    requires Before(q, next) && forall k :: 0 <= k < |ps| ==> Before(ps[k], q)
    ensures forall k :: 0 <= k < |ps| ==> Before(ps[k], next)
  {
    hide Before;
    forall k | 0 <= k < |ps| ensures Before(ps[k], next) {
      BeforeOrder(ps[k], q, next);
    }
  }

  lemma Onward<T>(y: Place -> Option<T>, q: Place, next: Place, ts: seq<T>)
    requires Seen(y, q, ts) && Before(q, next)
    requires forall p: Place :: Before(q, p) && Before(p, next) ==> y(p).None?
    ensures Seen(y, next, ts + Opt(y(q)))
  {
    hide Before, Placed;
    var ps :| SeenTo(y, q, ts, ps);
    var qs := if y(q).Some? then ps + [q] else ps;
    if y(q).Some? {
      PlacedNext(y, q, y(q).value, ts, ps);
    } else {
      assert ts + [] == ts;
    }
    BeforeNext(q, next, ps);
    forall p: Place | Before(p, next) && y(p).Some? ensures p in qs {
      BeforeOrder(p, q, next);
    }
    assert SeenTo(y, next, ts + Opt(y(q)), qs);
  }

  function Row<T>(y: Place -> Option<T>, source: nat, i: nat, m: nat): seq<T> {
    if m == 0 then [] else Row(y, source, i, m - 1) + Opt(y(Place(source, i, m - 1)))
  }

  function Table<T>(y: Place -> Option<T>, source: nat, n: nat, m: nat): seq<T> {
    if n == 0 then [] else Table(y, source, n - 1, m) + Row(y, source, n - 1, m)
  }

  // Nothing outside the first n rows and m columns.
  ghost predicate Within<T>(y: Place -> Option<T>, source: nat, n: nat, m: nat) {
    forall p: Place :: p.source == source && (p.i >= n || p.j >= m) ==> y(p).None?
  }

  lemma {:induction false} RowSeen<T>(y: Place -> Option<T>, source: nat, i: nat, m: nat, ts: seq<T>)
    requires Seen(y, Place(source, i, 0), ts)
    ensures Seen(y, Place(source, i, m), ts + Row(y, source, i, m))
  {
    hide Seen;
    if m == 0 {
      assert ts + [] == ts;
    } else {
      RowSeen(y, source, i, m - 1, ts);
      Onward(y, Place(source, i, m - 1), Place(source, i, m), ts + Row(y, source, i, m - 1));
      assert (ts + Row(y, source, i, m - 1)) + Opt(y(Place(source, i, m - 1))) == ts + Row(y, source, i, m);
    }
  }

  lemma {:induction false} TableSeen<T>(y: Place -> Option<T>, source: nat, n: nat, m: nat, ts: seq<T>, k: nat)
    requires Seen(y, Place(source, 0, 0), ts) && Within(y, source, n, m) && k <= n
    ensures Seen(y, Place(source, k, 0), ts + Table(y, source, k, m))
  {
    hide Seen, Row;
    if k == 0 {
      assert ts + [] == ts;
    } else {
      TableSeen(y, source, n, m, ts, k - 1);
      var above := ts + Table(y, source, k - 1, m);
      RowSeen(y, source, k - 1, m, above);
      Onward(y, Place(source, k - 1, m), Place(source, k, 0), above + Row(y, source, k - 1, m));
      assert y(Place(source, k - 1, m)).None?;
      assert (above + Row(y, source, k - 1, m)) + [] == ts + Table(y, source, k, m);
    }
  }

  lemma SourceSeen<T>(y: Place -> Option<T>, source: nat, n: nat, m: nat, ts: seq<T>)
    requires Seen(y, Place(source, 0, 0), ts) && Within(y, source, n, m)
    ensures Seen(y, Place(source + 1, 0, 0), ts + Table(y, source, n, m))
  {
    hide Seen, Table;
    TableSeen(y, source, n, m, ts, n);
    Onward(y, Place(source, n, 0), Place(source + 1, 0, 0), ts + Table(y, source, n, m));
    assert (ts + Table(y, source, n, m)) + [] == ts + Table(y, source, n, m);
  }

  lemma NothingSeen<T>(y: Place -> Option<T>)
    ensures Seen(y, Place(0, 0, 0), [])
  {
    assert SeenTo(y, Place(0, 0, 0), [], []);
  }

  // ---- The tables are what the sources offer ----

  lemma RowOne<T>(y: Place -> Option<T>, source: nat, i: nat)
    ensures Row(y, source, i, 1) == Opt(y(Place(source, i, 0)))
  {
    assert Row(y, source, i, 0) == [];
  }

  lemma {:induction false} StrictTable(parse: UrlParser, y: Place -> Option<Target>, source: nat,
                                       vals: seq<string>, n: nat)
    requires n <= |vals| && Strict(parse, vals[..n]).Ok?
    requires forall i: nat :: i < |vals| ==> y(Place(source, i, 0)) == Good(ParseUrlTarget(parse, vals[i]))
    ensures Strict(parse, vals[..n]).value == Table(y, source, n, 1)
  {
    hide ParseUrlTarget, Row;
    if n > 0 {
      assert vals[..n][..n - 1] == vals[..n - 1];
      StrictTable(parse, y, source, vals, n - 1);
      RowOne(y, source, n - 1);
    }
  }

  lemma {:induction false} StrictConcat(parse: UrlParser, a: seq<string>, b: seq<string>)
    ensures Strict(parse, a + b).Ok? <==> Strict(parse, a).Ok? && Strict(parse, b).Ok?
    ensures Strict(parse, a + b).Ok? ==>
              Strict(parse, a + b).value == Strict(parse, a).value + Strict(parse, b).value
    ensures Strict(parse, a).Err? ==> Strict(parse, a + b) == Strict(parse, a)
    ensures Strict(parse, a).Ok? && Strict(parse, b).Err? ==> Strict(parse, a + b) == Strict(parse, b)
  {
    hide ParseUrlTarget;
    if b == [] {
      assert a + b == a;
    } else {
      StrictConcat(parse, a, b[..|b| - 1]);
      assert (a + b)[..|a + b| - 1] == a + b[..|b| - 1];
    }
  }

  lemma {:induction false} LinesTable(parse: UrlParser, cfg: Config, input: FileInput, n: nat)
    requires cfg.file != "" && input.Lines? && n <= |input.lines|
    requires FileLines(parse, cfg.file, cfg.strictParsing, input.lines[..n]).Ok?
    ensures var r := FileLines(parse, cfg.file, cfg.strictParsing, input.lines[..n]).value;
            && r.targets == Table(Yields(parse, cfg, input), 3, n, 1)
            && r.warnings == Table(Warns(parse, cfg, input), 3, n, 1)
  {
    hide ParseUrlTarget, TrimSpace, Row, Itoa;
    if n > 0 {
      var lines := input.lines;
      assert lines[..n][..n - 1] == lines[..n - 1];
      LinesTable(parse, cfg, input, n - 1);
      NextLine(parse, cfg.file, cfg.strictParsing, lines, n - 1);
      RowOne(Yields(parse, cfg, input), 3, n - 1);
      RowOne(Warns(parse, cfg, input), 3, n - 1);
      hide FileLines;
    }
  }

  lemma CellIs(parse: UrlParser, cfg: Config, input: FileInput, i: nat, j: nat)
    requires cfg.hostnames != "" && i < |Split(cfg.hostnames, ',')| && j < |Split(cfg.ports, ',')|
    ensures var host := TrimSpace(Split(cfg.hostnames, ',')[i]);
            Opt(Yields(parse, cfg, input)(Place(4, i, j)))
              == if host == "" then [] else GridCell(parse, host, Split(cfg.ports, ',')[j])
  {
    hide ParseUrlTarget, TrimSpace, Split, Atoi, JoinHostPort;
    assert Itoa(443) == "443" by {
      assert Digits(4) == "4" && Digits(44) == "44" && Digits(443) == "443";
    }
  }

  lemma {:induction false} RowIs(parse: UrlParser, cfg: Config, input: FileInput, i: nat, m: nat)
    requires cfg.hostnames != "" && i < |Split(cfg.hostnames, ',')| && m <= |Split(cfg.ports, ',')|
    ensures GridRow(parse, TrimSpace(Split(cfg.hostnames, ',')[i]), Split(cfg.ports, ',')[..m])
         == Row(Yields(parse, cfg, input), 4, i, m)
  {
    hide TrimSpace, Split, GridCell, Yields, Opt;
    if m > 0 {
      var ports := Split(cfg.ports, ',');
      assert ports[..m][..m - 1] == ports[..m - 1];
      RowIs(parse, cfg, input, i, m - 1);
      CellIs(parse, cfg, input, i, m - 1);
    }
  }

  lemma {:induction false} GridTable(parse: UrlParser, cfg: Config, input: FileInput, n: nat)
    requires cfg.hostnames != "" && n <= |Split(cfg.hostnames, ',')|
    ensures var ports := Split(cfg.ports, ',');
            Grid(parse, Split(cfg.hostnames, ',')[..n], ports) == Table(Yields(parse, cfg, input), 4, n, |ports|)
  {
    hide TrimSpace, Split, GridRow, Row, Yields;
    if n > 0 {
      var hosts, ports := Split(cfg.hostnames, ','), Split(cfg.ports, ',');
      assert hosts[..n][..n - 1] == hosts[..n - 1] && ports[..|ports|] == ports;
      GridTable(parse, cfg, input, n - 1);
      RowIs(parse, cfg, input, n - 1, |ports|);
    }
  }

  // How many rows a source has.
  function Rows(cfg: Config, input: FileInput, source: nat): nat {
    match source
    case 0 => if cfg.hostport != "" then 1 else 0
    case 1 => |cfg.endpoints|
    case 2 => |cfg.urls|
    case 3 => if cfg.file != "" && input.Lines? then |input.lines| else 0
    case _ => if cfg.hostnames != "" then |Split(cfg.hostnames, ',')| else 0
  }

  function Columns(cfg: Config, source: nat): nat {
    if source == 4 then |Split(cfg.ports, ',')| else 1
  }

  lemma SourcesWithin(parse: UrlParser, cfg: Config, input: FileInput, source: nat)
    requires source < 5
    ensures Within(Yields(parse, cfg, input), source, Rows(cfg, input, source), Columns(cfg, source))
    ensures Within(Warns(parse, cfg, input), source, if source == 3 then Rows(cfg, input, 3) else 0, 1)
  {
    hide ParseUrlTarget, TrimSpace, Split, Atoi, JoinHostPort;
  }

  function TableOf(parse: UrlParser, cfg: Config, input: FileInput, source: nat): seq<Target> {
    Table(Yields(parse, cfg, input), source, Rows(cfg, input, source), Columns(cfg, source))
  }

  // What the first n sources yield.
  function Sources(parse: UrlParser, cfg: Config, input: FileInput, n: nat): seq<Target> {
    if n == 0 then [] else Sources(parse, cfg, input, n - 1) + TableOf(parse, cfg, input, n - 1)
  }

  lemma {:induction false} TargetsSeen(parse: UrlParser, cfg: Config, input: FileInput, n: nat)
    requires n <= 5
    ensures Seen(Yields(parse, cfg, input), Place(n, 0, 0), Sources(parse, cfg, input, n))
  {
    hide Seen, Within, Table, Yields, Rows, Columns;
    var y := Yields(parse, cfg, input);
    if n == 0 {
      NothingSeen(y);
    } else {
      TargetsSeen(parse, cfg, input, n - 1);
      SourcesWithin(parse, cfg, input, n - 1);
      SourceSeen(y, n - 1, Rows(cfg, input, n - 1), Columns(cfg, n - 1), Sources(parse, cfg, input, n - 1));
    }
  }

  function WarningsOf(parse: UrlParser, cfg: Config, input: FileInput): seq<string> {
    Table(Warns(parse, cfg, input), 3, Rows(cfg, input, 3), 1)
  }

  lemma NoRows<T>(y: Place -> Option<T>, source: nat, m: nat)
    ensures Table(y, source, 0, m) == []
  {
  }

  lemma Unchanged<T>(xs: seq<T>, ys: seq<T>)
    ensures xs + [] == xs && [] + ys == ys
  {
  }

  // Only the file gives warnings.
  lemma {:induction false} WarningsSeen(parse: UrlParser, cfg: Config, input: FileInput, n: nat)
    requires n <= 5
    ensures Seen(Warns(parse, cfg, input), Place(n, 0, 0), if n > 3 then WarningsOf(parse, cfg, input) else [])
  {
    hide Seen, Within, Warns, Rows, Before, Row;
    var w := Warns(parse, cfg, input);
    if n == 0 {
      NothingSeen(w);
    } else {
      WarningsSeen(parse, cfg, input, n - 1);
      SourcesWithin(parse, cfg, input, n - 1);
      var before := if n - 1 > 3 then WarningsOf(parse, cfg, input) else [];
      var rows := if n - 1 == 3 then Rows(cfg, input, 3) else 0;
      SourceSeen(w, n - 1, rows, 1, before);
      NoRows(w, n - 1, 1);
      hide Table;
      Unchanged(before, Table(w, 3, rows, 1));
    }
  }

  lemma StrictSources(parse: UrlParser, cfg: Config, input: FileInput)
    requires Strict(parse, StrictVals(cfg)).Ok?
    ensures Strict(parse, StrictVals(cfg)).value == Sources(parse, cfg, input, 3)
  {
    hide ParseUrlTarget, Strict, Table, Split;
    var first := if cfg.hostport != "" then [cfg.hostport] else [];
    var y := Yields(parse, cfg, input);
    StrictConcat(parse, first + cfg.endpoints, cfg.urls);
    StrictConcat(parse, first, cfg.endpoints);
    assert first[..|first|] == first && cfg.endpoints[..|cfg.endpoints|] == cfg.endpoints
           && cfg.urls[..|cfg.urls|] == cfg.urls;
    StrictTable(parse, y, 0, first, |first|);
    StrictTable(parse, y, 1, cfg.endpoints, |cfg.endpoints|);
    StrictTable(parse, y, 2, cfg.urls, |cfg.urls|);
    SourcesThree(parse, cfg, input);
  }

  lemma SourcesThree(parse: UrlParser, cfg: Config, input: FileInput)
    ensures Sources(parse, cfg, input, 3)
         == TableOf(parse, cfg, input, 0) + TableOf(parse, cfg, input, 1) + TableOf(parse, cfg, input, 2)
  {
    hide TableOf;
    assert Sources(parse, cfg, input, 1) == [] + TableOf(parse, cfg, input, 0) == TableOf(parse, cfg, input, 0);
    assert Sources(parse, cfg, input, 2) == Sources(parse, cfg, input, 1) + TableOf(parse, cfg, input, 1);
  }

  lemma FileSource(parse: UrlParser, cfg: Config, input: FileInput)
    requires FromFile(parse, cfg, input).Ok?
    ensures FromFile(parse, cfg, input).value
         == ParseResult(TableOf(parse, cfg, input, 3), WarningsOf(parse, cfg, input))
  {
    hide FileLines, Yields, Warns, Row;
    if cfg.file != "" {
      assert input.lines[..|input.lines|] == input.lines;
      LinesTable(parse, cfg, input, |input.lines|);
    }
  }

  lemma GridSource(parse: UrlParser, cfg: Config, input: FileInput)
    ensures FromGrid(parse, cfg) == TableOf(parse, cfg, input, 4)
  {
    hide Yields, Row, Split, Grid;
    if cfg.hostnames != "" {
      var hosts := Split(cfg.hostnames, ',');
      assert hosts[..|hosts|] == hosts;
      GridTable(parse, cfg, input, |hosts|);
    }
  }

  lemma OfferedSeen(parse: UrlParser, cfg: Config, input: FileInput)
    requires Offered(parse, cfg, input).Ok?
    ensures var r := Offered(parse, cfg, input).value;
            && Seen(Yields(parse, cfg, input), Place(5, 0, 0), r.targets)
            && Seen(Warns(parse, cfg, input), Place(5, 0, 0), r.warnings)
  {
    hide Seen, Yields, Warns, Strict, StrictVals, FromFile, FromGrid, TableOf, WarningsOf;
    StrictSources(parse, cfg, input);
    FileSource(parse, cfg, input);
    GridSource(parse, cfg, input);
    TargetsSeen(parse, cfg, input, 5);
    WarningsSeen(parse, cfg, input, 5);
    assert Sources(parse, cfg, input, 5) == Sources(parse, cfg, input, 4) + TableOf(parse, cfg, input, 4);
    assert Sources(parse, cfg, input, 4) == Sources(parse, cfg, input, 3) + TableOf(parse, cfg, input, 3);
  }

  // ---- Deduplication keeps the first places ----

  // Each kept target stands where it was given.
  ghost predicate Drawn(ts: seq<Target>, ps: seq<Place>, t: Target, q: Place) {
    exists k :: 0 <= k < |ts| && k < |ps| && t == ts[k] && q == ps[k]
  }

  ghost predicate FirstPlaces(ts: seq<Target>, ps: seq<Place>, kept: seq<Target>, qs: seq<Place>) {
    && |ps| == |ts| && |qs| == |kept|
    && (forall a :: 0 <= a < |kept| ==> Drawn(ts, ps, kept[a], qs[a]))
    && (forall a, b :: 0 <= a < b < |qs| ==> Before(qs[a], qs[b]))
    && (forall k :: 0 <= k < |ts| ==> Represented(kept, qs, ps[k], ts[k]))
  }

  lemma RepresentedLater(kept: seq<Target>, qs: seq<Place>, t: Target, q: Place, p: Place, u: Target)
    requires |kept| == |qs| && Represented(kept, qs, p, u)
    ensures Represented(kept + [t], qs + [q], p, u)
  {
    hide Before;
    var k :| 0 <= k < |kept| && k < |qs| && SameEndpoint(kept[k], u) && (qs[k] == p || Before(qs[k], p));
    assert (kept + [t])[k] == kept[k] && (qs + [q])[k] == qs[k];
  }

  lemma RepresentedSame(kept: seq<Target>, qs: seq<Place>, p: Place, u: Target, q: Place, t: Target)
    requires Represented(kept, qs, p, u) && SameEndpoint(u, t) && Before(p, q)
    ensures Represented(kept, qs, q, t)
  {
    hide Before;
    var k :| 0 <= k < |kept| && k < |qs| && SameEndpoint(kept[k], u) && (qs[k] == p || Before(qs[k], p));
    BeforeOrder(qs[k], p, q);
  }

  lemma {:induction false} DedupPlaces(ts: seq<Target>, ps: seq<Place>)
    requires |ps| == |ts| && forall k, l :: 0 <= k < l < |ps| ==> Before(ps[k], ps[l])
    ensures exists qs: seq<Place> :: FirstPlaces(ts, ps, FirstOccurrences(ts), qs)
  {
    hide Before, Represented, Present, FirstPlaces, FirstOccurrences;
    if ts == [] {
      DedupNothing();
    } else {
      var n := |ts| - 1;
      var init, last := ts[..n], ts[n];
      DedupPlaces(init, ps[..n]);
      var kept := FirstOccurrences(init);
      var qs: seq<Place> :| FirstPlaces(init, ps[..n], kept, qs);
      DedupStep(init, ps[..n], kept, qs, last, ps[n]);
      NextOccurrence(init, last);
      assert kept + [] == kept;
      assert init + [last] == ts && ps[..n] + [ps[n]] == ps;
    }
  }

  lemma DedupNothing()
    ensures FirstPlaces([], [], FirstOccurrences([]), [])
  {
  }

  lemma DedupStep(ts: seq<Target>, ps: seq<Place>, kept: seq<Target>, qs: seq<Place>, last: Target, p: Place)
    requires |ps| == |ts| && FirstPlaces(ts, ps, kept, qs) && forall k :: 0 <= k < |ps| ==> Before(ps[k], p)
    ensures var more := if Present(ts, last) then kept else kept + [last];
            var rs := if Present(ts, last) then qs else qs + [p];
            FirstPlaces(ts + [last], ps + [p], more, rs)
  {
    hide Before, Represented, SameEndpoint, FirstPlaces;
    if Present(ts, last) {
      var k :| 0 <= k < |ts| && SameEndpoint(ts[k], last);
      AlreadyRepresented(ts, ps, kept, qs, k, last, p);
      PlacesRepeat(ts, ps, kept, qs, last, p);
    } else {
      PlacesGrow(ts, ps, kept, qs, last, p);
    }
  }

  lemma AlreadyRepresented(ts: seq<Target>, ps: seq<Place>, kept: seq<Target>, qs: seq<Place>,
                           k: nat, last: Target, p: Place)
    requires FirstPlaces(ts, ps, kept, qs) && k < |ts| && SameEndpoint(ts[k], last) && Before(ps[k], p)
    ensures Represented(kept, qs, p, last)
  {
    hide Before, SameEndpoint, Represented;
    RepresentedSame(kept, qs, ps[k], ts[k], p, last);
  }

  lemma DrawnLater(ts: seq<Target>, ps: seq<Place>, t: Target, q: Place, last: Target, p: Place)
    requires |ts| == |ps|
    ensures Drawn(ts, ps, t, q) ==> Drawn(ts + [last], ps + [p], t, q)
    ensures Drawn(ts + [last], ps + [p], last, p)
  {
    assert (ts + [last])[|ts|] == last && (ps + [p])[|ps|] == p;
    if Drawn(ts, ps, t, q) {
      var k :| 0 <= k < |ts| && k < |ps| && t == ts[k] && q == ps[k];
      assert (ts + [last])[k] == t && (ps + [p])[k] == q;
    }
  }

  lemma PlacesRepeat(ts: seq<Target>, ps: seq<Place>, kept: seq<Target>, qs: seq<Place>, last: Target, p: Place)
    requires FirstPlaces(ts, ps, kept, qs) && Represented(kept, qs, p, last)
    ensures FirstPlaces(ts + [last], ps + [p], kept, qs)
  {
    hide Before, Represented, Drawn;
    forall a | 0 <= a < |kept| ensures Drawn(ts + [last], ps + [p], kept[a], qs[a]) {
      DrawnLater(ts, ps, kept[a], qs[a], last, p);
    }
  }

  lemma PlacesGrow(ts: seq<Target>, ps: seq<Place>, kept: seq<Target>, qs: seq<Place>, last: Target, p: Place)
    requires FirstPlaces(ts, ps, kept, qs) && forall k :: 0 <= k < |ps| ==> Before(ps[k], p)
    ensures FirstPlaces(ts + [last], ps + [p], kept + [last], qs + [p])
  {
    hide Before, Represented, Drawn;
    forall a | 0 <= a < |kept| + 1 ensures Drawn(ts + [last], ps + [p], (kept + [last])[a], (qs + [p])[a]) {
      if a < |kept| {
        DrawnLater(ts, ps, kept[a], qs[a], last, p);
      } else {
        DrawnLater(ts, ps, last, p, last, p);
      }
    }
    forall a | 0 <= a < |qs| ensures Before(qs[a], p) {
      DrawnBefore(ts, ps, kept[a], qs[a], p);
    }
    forall k | 0 <= k < |ts| ensures Represented(kept + [last], qs + [p], ps[k], ts[k]) {
      RepresentedLater(kept, qs, last, p, ps[k], ts[k]);
    }
    RepresentedNow(kept, qs, p, last);
  }

  lemma DrawnBefore(ts: seq<Target>, ps: seq<Place>, t: Target, q: Place, p: Place)
    requires Drawn(ts, ps, t, q) && forall k :: 0 <= k < |ps| ==> Before(ps[k], p)
    ensures Before(q, p)
  {
    hide Before;
  }

  lemma RepresentedNow(kept: seq<Target>, qs: seq<Place>, p: Place, t: Target)
    requires |kept| == |qs|
    ensures Represented(kept + [t], qs + [p], p, t)
  {
    assert (kept + [t])[|kept|] == t && (qs + [p])[|kept|] == p;
  }

  lemma SeenKept(parse: UrlParser, cfg: Config, input: FileInput, ts: seq<Target>)
    requires Seen(Yields(parse, cfg, input), Place(5, 0, 0), ts)
    ensures exists qs: seq<Place> :: Kept(Yields(parse, cfg, input), FirstOccurrences(ts), qs)
  {
    hide Represented, FirstOccurrences;
    var y := Yields(parse, cfg, input);
    var ps: seq<Place> :| SeenTo(y, Place(5, 0, 0), ts, ps);
    DedupPlaces(ts, ps);
    DedupComplete(ts);
    var qs: seq<Place> :| FirstPlaces(ts, ps, FirstOccurrences(ts), qs);
    AllBefore(parse, cfg, input, ps, ts);
    KeptFrom(y, ts, ps, FirstOccurrences(ts), qs);
  }

  // Beyond the last source there is nothing.
  lemma AllBefore(parse: UrlParser, cfg: Config, input: FileInput, ps: seq<Place>, ts: seq<Target>)
    requires SeenTo(Yields(parse, cfg, input), Place(5, 0, 0), ts, ps)
    ensures Complete(Yields(parse, cfg, input), ps)
  {
    hide Placed;
  }

  lemma KeptFrom(y: Place -> Option<Target>, ts: seq<Target>, ps: seq<Place>, kept: seq<Target>, qs: seq<Place>)
    requires Placed(y, ts, ps) && Complete(y, ps) && FirstPlaces(ts, ps, kept, qs) && Distinct(kept)
    ensures Kept(y, kept, qs)
  {
    hide Before, Represented, Distinct;
    forall p: Place | y(p).Some? ensures Represented(kept, qs, p, y(p).value) {
      var k :| 0 <= k < |ps| && ps[k] == p;
      assert y(ps[k]) == Some(ts[k]);
    }
  }

  lemma SeenWarnings(parse: UrlParser, cfg: Config, input: FileInput, ws: seq<string>)
    requires Seen(Warns(parse, cfg, input), Place(5, 0, 0), ws)
    ensures exists ps: seq<Place> :: Placed(Warns(parse, cfg, input), ws, ps) && Complete(Warns(parse, cfg, input), ps)
  {
    var ps: seq<Place> :| SeenTo(Warns(parse, cfg, input), Place(5, 0, 0), ws, ps);
    assert Complete(Warns(parse, cfg, input), ps);
  }

  // ---- Failure ----

  lemma NothingYields(parse: UrlParser, cfg: Config, input: FileInput, ts: seq<Target>)
    requires Seen(Yields(parse, cfg, input), Place(5, 0, 0), ts)
    ensures ts == [] <==> forall p: Place :: Yields(parse, cfg, input)(p).None?
  {
    var y := Yields(parse, cfg, input);
    var ps: seq<Place> :| SeenTo(y, Place(5, 0, 0), ts, ps);
    AllBefore(parse, cfg, input, ps, ts);
    hide Yields, Before;
    if ts != [] {
      assert y(ps[0]) == Some(ts[0]);
    }
  }

  // What the first three sources list.
  function Entries(cfg: Config, source: nat): seq<string> {
    match source
    case 0 => if cfg.hostport != "" then [cfg.hostport] else []
    case 1 => cfg.endpoints
    case _ => cfg.urls
  }

  ghost predicate SomeBad(parse: UrlParser, vals: seq<string>) {
    exists i :: 0 <= i < |vals| && ParseUrlTarget(parse, vals[i]).Err?
  }

  lemma StrictBad(parse: UrlParser, vals: seq<string>)
    ensures Strict(parse, vals).Err? <==> SomeBad(parse, vals)
  {
    hide ParseUrlTarget, Strict;
    StrictPolicy(parse, vals);
  }

  lemma StrictFails(parse: UrlParser, cfg: Config, input: FileInput)
    ensures Strict(parse, StrictVals(cfg)).Err? <==> exists p: Place :: p.source < 3 && Bad(parse, cfg, input, p)
  {
    hide ParseUrlTarget, Strict, Line, Cell, SomeBad;
    var first := if cfg.hostport != "" then [cfg.hostport] else [];
    StrictConcat(parse, first + cfg.endpoints, cfg.urls);
    StrictConcat(parse, first, cfg.endpoints);
    StrictBad(parse, first);
    StrictBad(parse, cfg.endpoints);
    StrictBad(parse, cfg.urls);
    BadAt(parse, cfg, input, 0, first);
    BadAt(parse, cfg, input, 1, cfg.endpoints);
    BadAt(parse, cfg, input, 2, cfg.urls);
    hide Bad, StrictVals;
  }

  lemma BadAt(parse: UrlParser, cfg: Config, input: FileInput, source: nat, vals: seq<string>)
    requires source < 3
    requires vals == Entries(cfg, source)
    ensures SomeBad(parse, vals) <==> exists p: Place :: p.source == source && Bad(parse, cfg, input, p)
  {
    hide ParseUrlTarget, Line, Cell;
    if i :| 0 <= i < |vals| && ParseUrlTarget(parse, vals[i]).Err? {
      assert Bad(parse, cfg, input, Place(source, i, 0));
    }
    if p: Place :| p.source == source && Bad(parse, cfg, input, p) {
      assert Given(cfg, input, p) == Some(vals[p.i]);
    }
  }

  lemma FileFailsIs(parse: UrlParser, cfg: Config, input: FileInput)
    ensures FromFile(parse, cfg, input).Err? <==> FileFails(parse, cfg, input)
  {
    hide ParseUrlTarget, FileLines, Bad;
    if cfg.file != "" && input.Lines? {
      FilePolicy(parse, cfg.file, cfg.strictParsing, input.lines);
      BadLines(parse, cfg, input);
    }
  }

  lemma BadLines(parse: UrlParser, cfg: Config, input: FileInput)
    requires cfg.file != "" && input.Lines?
    ensures (exists k :: 0 <= k < |input.lines| && BadLine(parse, input.lines[k]))
       <==> exists p: Place :: p.source == 3 && Bad(parse, cfg, input, p)
  {
    hide ParseUrlTarget, TrimSpace, Cell;
    if k :| 0 <= k < |input.lines| && BadLine(parse, input.lines[k]) {
      assert Bad(parse, cfg, input, Place(3, k, 0));
    }
    if p: Place :| p.source == 3 && Bad(parse, cfg, input, p) {
      assert BadLine(parse, input.lines[p.i]);
    }
  }

  lemma FailsIs(parse: UrlParser, cfg: Config, input: FileInput)
    ensures Ingest(parse, cfg, input).Err? <==> Fails(parse, cfg, input)
  {
    hide Strict, StrictVals, FromFile, FromGrid, FirstOccurrences, Yields, Bad, FileFails, Seen;
    StrictFails(parse, cfg, input);
    FileFailsIs(parse, cfg, input);
    if Offered(parse, cfg, input).Ok? {
      OfferedSeen(parse, cfg, input);
      NothingYields(parse, cfg, input, Offered(parse, cfg, input).value.targets);
    }
  }

  // The first bad entry of a source, when the sources before it have none.
  lemma SourceError(parse: UrlParser, cfg: Config, input: FileInput, source: nat)
    requires source < 3 && Strict(parse, Entries(cfg, source)).Err?
    requires forall k: nat :: k < source ==> Strict(parse, Entries(cfg, k)).Ok?
    ensures exists p: Place ::
              && p.source < 3 && FirstBad(parse, cfg, input, p)
              && Strict(parse, Entries(cfg, source)) == Err(ParseUrlTarget(parse, Given(cfg, input, p).value).message)
  {
    hide ParseUrlTarget, Strict, Line, Cell;
    var vals := Entries(cfg, source);
    StrictPolicy(parse, vals);
    var k :| 0 <= k < |vals| && ParseUrlTarget(parse, vals[k]) == Err(Strict(parse, vals).message)
      && forall i :: 0 <= i < k ==> ParseUrlTarget(parse, vals[i]).Ok?;
    var p := Place(source, k, 0);
    forall q: Place | Before(q, p) ensures !Bad(parse, cfg, input, q) {
      if Given(cfg, input, q).Some? {
        var entries := Entries(cfg, q.source);
        assert Given(cfg, input, q) == Some(entries[q.i]);
        StrictPolicy(parse, entries);
        assert q.source < source ==> Strict(parse, entries).Ok?;
      }
    }
    assert Given(cfg, input, p) == Some(vals[k]);
    assert FirstBad(parse, cfg, input, p);
  }

  lemma StrictExplains(parse: UrlParser, cfg: Config, input: FileInput)
    requires Strict(parse, StrictVals(cfg)).Err?
    ensures exists p: Place ::
              && p.source < 3 && FirstBad(parse, cfg, input, p)
              && Strict(parse, StrictVals(cfg)).message == ParseUrlTarget(parse, Given(cfg, input, p).value).message
  {
    hide ParseUrlTarget, Strict, FirstBad, Given;
    StrictConcat(parse, Entries(cfg, 0) + cfg.endpoints, cfg.urls);
    StrictConcat(parse, Entries(cfg, 0), cfg.endpoints);
    if Strict(parse, Entries(cfg, 0)).Err? {
      SourceError(parse, cfg, input, 0);
    } else if Strict(parse, Entries(cfg, 1)).Err? {
      SourceError(parse, cfg, input, 1);
    } else {
      SourceError(parse, cfg, input, 2);
    }
  }

  lemma {:induction false} FileError(parse: UrlParser, file: string, strict: bool, lines: seq<string>)
    requires FileLines(parse, file, strict, lines).Err?
    ensures exists k: nat ::
              && WarnedLine(parse, file, lines, k, FileLines(parse, file, strict, lines).message)
              && forall i :: 0 <= i < k ==> !BadLine(parse, lines[i])
  {
    hide ParseUrlTarget, Skipped, TrimSpace, Warning, BadLine, WarnedLine;
    var n := |lines| - 1;
    var init := lines[..n];
    assert forall i :: 0 <= i < n ==> init[i] == lines[i];
    if FileLines(parse, file, strict, init).Err? {
      FileError(parse, file, strict, init);
      var e := FileLines(parse, file, strict, init).message;
      forall k: nat | WarnedLine(parse, file, init, k, e) ensures k < n {
        WarnedInside(parse, file, init, k, e);
      }
      var k: nat :| WarnedLine(parse, file, init, k, e) && forall i :: 0 <= i < k ==> !BadLine(parse, init[i]);
      LineKept(parse, file, init, lines[n]);
      assert init + [lines[n]] == lines;
      assert WarnedLine(parse, file, lines, k, e);
    } else {
      LastLine(parse, file, lines);
      FilePolicy(parse, file, strict, init);
      assert forall i :: 0 <= i < n ==> !BadLine(parse, lines[i]);
    }
  }

  lemma WarnedInside(parse: UrlParser, file: string, lines: seq<string>, k: nat, w: string)
    requires WarnedLine(parse, file, lines, k, w)
    ensures k < |lines|
  {
  }

  lemma FileExplains(parse: UrlParser, cfg: Config, input: FileInput)
    requires cfg.file != "" && input.Lines?
    requires FileLines(parse, cfg.file, cfg.strictParsing, input.lines).Err?
    requires forall p: Place :: p.source < 3 ==> !Bad(parse, cfg, input, p)
    ensures exists p: Place ::
              && p.source == 3 && FirstBad(parse, cfg, input, p)
              && Warns(parse, cfg, input)(p)
                 == Some(FileLines(parse, cfg.file, cfg.strictParsing, input.lines).message)
  {
    hide ParseUrlTarget, TrimSpace, FileLines, Cell, Itoa;
    FileError(parse, cfg.file, cfg.strictParsing, input.lines);
    var e := FileLines(parse, cfg.file, cfg.strictParsing, input.lines).message;
    var k: nat :| WarnedLine(parse, cfg.file, input.lines, k, e)
      && forall i :: 0 <= i < k ==> !BadLine(parse, input.lines[i]);
    var p := Place(3, k, 0);
    forall q: Place | Before(q, p) ensures !Bad(parse, cfg, input, q) {
      if q.source == 3 && q.i < |input.lines| {
        assert !BadLine(parse, input.lines[q.i]);
      }
    }
    assert FirstBad(parse, cfg, input, p);
  }

  lemma ErrorExplains(parse: UrlParser, cfg: Config, input: FileInput)
    requires Ingest(parse, cfg, input).Err?
    ensures Explains(parse, cfg, input, Ingest(parse, cfg, input).message)
  {
    hide Strict, StrictVals, FileLines, FromGrid, FirstOccurrences, Yields, Warns, Bad, FirstBad, Given, ParseUrlTarget;
    StrictFails(parse, cfg, input);
    if Strict(parse, StrictVals(cfg)).Err? {
      StrictExplains(parse, cfg, input);
    } else {
      FileFailsIs(parse, cfg, input);
      if cfg.file != "" && input.Lines? {
        FilePolicy(parse, cfg.file, cfg.strictParsing, input.lines);
        BadLines(parse, cfg, input);
        if FileLines(parse, cfg.file, cfg.strictParsing, input.lines).Err? {
          FileExplains(parse, cfg, input);
        }
      }
    }
  }

  // ---- The call ----

  lemma IngestKeeps(parse: UrlParser, cfg: Config, input: FileInput)
    requires Ingest(parse, cfg, input).Ok?
    ensures var r := Ingest(parse, cfg, input).value;
            && (exists ps: seq<Place> :: Kept(Yields(parse, cfg, input), r.targets, ps))
            && (exists ps: seq<Place> ::
                  Placed(Warns(parse, cfg, input), r.warnings, ps) && Complete(Warns(parse, cfg, input), ps))
  {
    hide Offered, FirstOccurrences, Yields, Warns, Kept, Placed, Complete, Seen;
    OfferedSeen(parse, cfg, input);
    SeenKept(parse, cfg, input, Offered(parse, cfg, input).value.targets);
    SeenWarnings(parse, cfg, input, Offered(parse, cfg, input).value.warnings);
  }

  // ParseTargetsWithWarnings.
  method ParseTargetsWithWarnings(parse: UrlParser, config: Option<Config>, input: FileInput)
    returns (result: Result<ParseResult>)
    requires WellBehaved(parse)
    ensures config.None? ==> result.Err?
    ensures config.Some? ==> result == Ingest(parse, config.value, input)
    // The targets given anywhere, once each, in the order of the places that first
    // give them; a warning for each bad line, in order.
    ensures config.Some? && result.Ok? ==>
              && (exists ps: seq<Place> :: Kept(Yields(parse, config.value, input), result.value.targets, ps))
              && (exists ps: seq<Place> ::
                    && Placed(Warns(parse, config.value, input), result.value.warnings, ps)
                    && Complete(Warns(parse, config.value, input), ps))
    ensures config.Some? ==> (result.Err? <==> Fails(parse, config.value, input))
    ensures config.Some? && result.Err? ==> Explains(parse, config.value, input, result.message)
  {
    hide FirstOccurrences, Grid, FromFile, Strict, StrictVals, Split, Kept, Placed, Complete, Fails, Explains,
         Yields, Warns;
    if config.None? {
      return Err("config cannot be nil");
    }
    var cfg := config.value;
    FailsIs(parse, cfg, input);
    if Ingest(parse, cfg, input).Ok? {
      IngestKeeps(parse, cfg, input);
    } else {
      ErrorExplains(parse, cfg, input);
    }
    result := Collect(parse, cfg, input);
  }
}
