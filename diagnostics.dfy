/**
 * Turning the resources of a preview run into LSP diagnostics grouped by file
 * (server/diagnostics.go, diagnose and its helpers).
 *
 * Each resource with a source position and policy diagnostics is matched with the
 * parser's capture starting on its line; each of its policy diagnostics becomes a
 * diagnostic over that capture's range, carrying the capture and the file as resolve
 * data. The captures of a file come from a parameter (GetCapturesFromURI reads the file
 * through the view and runs the parser, neither of which is part of this model). Go's
 * map iteration order is a parameter `order` that enumerates the resources' URNs.
 */
module Diagnostics {
  import opened Wrappers
  import opened Json
  import Strconv
  import Strs
  import Captures
  import PulumiRun

  type Capture = Captures.Capture
  type Info = PulumiRun.Info
  type CaptureSource = string -> Result<seq<Capture>, Errors.Error>

  import Errors

  /** LSP positions and ranges; line and character are int32. */
  datatype Position = Position(line: int, character: int)
  datatype Range = Range(start: Position, end: Position)

  /** A diagnostic as the server keeps it for a file. */
  datatype Diagnostic = Diagnostic(range: Range, data: Json, uri: string, message: string,
                                   severity: int, source: string)

  /** A diagnostic as it is published to the client, or as a client sends it back; the
      data is None when the diagnostic carries none: an omitted `data` member, or a JSON
      null one, which decodes into a nil pointer the same way. */
  datatype ProtocolDiagnostic = ProtocolDiagnostic(range: Range, severity: int, source: string,
                                                   message: string, data: Option<Json>)

  /** Why diagnose panics: a nil pointer dereference, or contract.Failf on an unknown level. */
  datatype Panic =
    | NilSourcePosition(urn: string)
    | NoCapture(uri: string, row: nat)
    | UnknownEnforcementLevel(level: int)

  datatype Grouping = Grouped(byUri: map<string, seq<Diagnostic>>) | Panicked(panic: Panic)

  /** enforcementLevelToSeverity: advisory is information (3), mandatory an error (1),
      remediate a warning (2), disabled a hint (4); any other level has no severity. */
  function EnforcementLevelToSeverity(l: PulumiRun.Level): (r: Option<int>)
    ensures r.None? <==> l.UnknownLevel?
    ensures r.Some? ==> 1 <= r.value <= 4
  {
    match l
    case Advisory => Some(3)
    case Mandatory => Some(1)
    case Remediate => Some(2)
    case Disabled => Some(4)
    case UnknownLevel(_) => None
  }

  /** The level each severity stands for. */
  function LevelOfSeverity(n: int): Option<PulumiRun.Level>
  {
    if n == 1 then Some(PulumiRun.Mandatory)
    else if n == 2 then Some(PulumiRun.Remediate)
    else if n == 3 then Some(PulumiRun.Advisory)
    else if n == 4 then Some(PulumiRun.Disabled)
    else None
  }

  /** The mapping is a bijection between the four known levels and severities 1 to 4. */
  lemma SeverityBijection(l: PulumiRun.Level, n: int)
    ensures EnforcementLevelToSeverity(l) == Some(n) <==> LevelOfSeverity(n) == Some(l)
  {
  }

  /** The row a resource's one-based line selects: Line-1 in int32, then converted to uint. */
  function StartRow(line: int): nat
  {
    Strconv.UintOfInt32(Strconv.WrapInt32(line - 1))
  }

  /** The first capture starting on the given row, if any. */
  function FirstCapture(captures: seq<Capture>, row: nat): (r: Option<Capture>)
    decreases |captures|
    ensures r.None? <==> forall i :: 0 <= i < |captures| ==> captures[i].startPoint.row != row
    ensures r.Some? ==> exists i :: 0 <= i < |captures| && captures[i] == r.value && captures[i].startPoint.row == row
                                 && forall j :: 0 <= j < i ==> captures[j].startPoint.row != row
  {
    if captures == [] then None
    else if captures[0].startPoint.row == row then Some(captures[0])
    else
      var r := FirstCapture(captures[1..], row);
      assert forall i :: 1 <= i < |captures| ==> captures[i] == captures[1..][i - 1];
      if r.Some? then
        ghost var k :| 0 <= k < |captures| - 1 && captures[1..][k] == r.value && captures[1..][k].startPoint.row == row
                       && forall j :: 0 <= j < k ==> captures[1..][j].startPoint.row != row;
        assert captures[k + 1] == r.value;
        r
      else r
  }

  /** findCaptureWithStartLine: a scan for the first capture whose start row is uint(line). */
  method FindCaptureWithStartLine(captures: seq<Capture>, line: int) returns (r: Option<Capture>)
    requires Strconv.MinInt32 <= line <= Strconv.MaxInt32
    ensures r == FirstCapture(captures, Strconv.UintOfInt32(line))
  {
    var row := Strconv.UintOfInt32(line);
    for i := 0 to |captures|
      invariant forall j :: 0 <= j < i ==> captures[j].startPoint.row != row
    {
      if captures[i].startPoint.row == row {
        return Some(captures[i]);
      }
    }
    return None;
  }

  /** A capture's range, each uint coordinate converted to int32. */
  function CaptureRange(c: Capture): Range
  {
    Range(Position(Strconv.WrapInt32(c.startPoint.row), Strconv.WrapInt32(c.startPoint.column)),
          Position(Strconv.WrapInt32(c.endPoint.row), Strconv.WrapInt32(c.endPoint.column)))
  }

  /** One policy diagnostic over a capture in a file; panics on an unknown level. */
  function ConvertDiagnostic(d: PulumiRun.AnalyzeDiagnostic, c: Capture, uri: string): Result<Diagnostic, Panic>
  {
    var severity := EnforcementLevelToSeverity(d.enforcementLevel);
    if severity.None? then Err(UnknownEnforcementLevel(d.enforcementLevel.value))
    else Ok(Diagnostic(CaptureRange(c), Captures.EncodeResolveData(Captures.ResolveData(c, uri)), uri,
                       d.message, severity.value, d.policyName))
  }

  /** The inner loop of diagnose: every policy diagnostic of a resource, in order. */
  function ConvertAll(ds: seq<PulumiRun.AnalyzeDiagnostic>, c: Capture, uri: string): Result<seq<Diagnostic>, Panic>
    decreases |ds|
  {
    if ds == [] then Ok([])
    else
      var p := ConvertAll(ds[..|ds| - 1], c, uri);
      var d := ConvertDiagnostic(ds[|ds| - 1], c, uri);
      if p.Err? then p
      else if d.Err? then Err(d.error)
      else Ok(p.value + [d.value])
  }

  /** A converted diagnostic: the file, the capture's range, the policy's message and name,
      the level's severity, and resolve data that decodes back to the capture and file. */
  predicate ConvertedFrom(r: Diagnostic, d: PulumiRun.AnalyzeDiagnostic, c: Capture, uri: string)
  {
    && r.uri == uri && r.range == CaptureRange(c)
    && r.message == d.message && r.source == d.policyName
    && EnforcementLevelToSeverity(d.enforcementLevel) == Some(r.severity)
    && r.data == Captures.EncodeResolveData(Captures.ResolveData(c, uri))
  }

  /** Conversion succeeds iff every level is known, and then converts each diagnostic in
      place; otherwise it panics on the first unknown level. */
  lemma {:induction false} ConvertAllMeaning(ds: seq<PulumiRun.AnalyzeDiagnostic>, c: Capture, uri: string)
    decreases |ds|
    ensures ConvertAll(ds, c, uri).Ok? <==> forall i :: 0 <= i < |ds| ==> !ds[i].enforcementLevel.UnknownLevel?
    ensures ConvertAll(ds, c, uri).Ok? ==>
      var r := ConvertAll(ds, c, uri).value;
      |r| == |ds| && forall i :: 0 <= i < |ds| ==> ConvertedFrom(r[i], ds[i], c, uri)
    ensures ConvertAll(ds, c, uri).Err? ==>
      exists i :: 0 <= i < |ds| && ds[i].enforcementLevel.UnknownLevel?
        && ConvertAll(ds, c, uri).error == UnknownEnforcementLevel(ds[i].enforcementLevel.value)
        && forall j :: 0 <= j < i ==> !ds[j].enforcementLevel.UnknownLevel?
  {
    if ds != [] {
      var n := |ds| - 1;
      ConvertAllMeaning(ds[..n], c, uri);
      assert forall i :: 0 <= i < n ==> ds[..n][i] == ds[i];
      if ConvertAll(ds[..n], c, uri).Err? {
        var i :| 0 <= i < n && ds[..n][i].enforcementLevel.UnknownLevel?
          && ConvertAll(ds[..n], c, uri).error == UnknownEnforcementLevel(ds[..n][i].enforcementLevel.value)
          && forall j :: 0 <= j < i ==> !ds[..n][j].enforcementLevel.UnknownLevel?;
        assert ds[i] == ds[..n][i];
      }
    }
  }

  /** The resolve data of every converted diagnostic decodes back to its capture and file. */
  lemma ResolveDataRoundTrip(r: Diagnostic, d: PulumiRun.AnalyzeDiagnostic, c: Capture, uri: string)
    requires Captures.ValidCapture(c)
    requires ConvertedFrom(r, d, c, uri)
    ensures Captures.DecodeResolveData(r.data) == Ok(Captures.ResolveData(c, uri))
  {
    Captures.DecodeEncode(Captures.ResolveData(c, uri));
  }

  /** A resource's diagnostics with the nil checks the code evidently intends: a resource
      without diagnostics, without a source position, whose file's captures cannot be read,
      or without a capture on its line contributes nothing. */
  function ResourceDiagnostics(info: Info, captures: CaptureSource): Result<seq<Diagnostic>, Panic>
  {
    if info.diagnostics.None? || info.sourcePosition.None? then Ok([])
    else
      var pos := info.sourcePosition.value;
      var caps := captures(pos.uri);
      if caps.Err? then Ok([])
      else
        var c := FirstCapture(caps.value, StartRow(pos.line));
        if c.None? then Ok([])
        else ConvertAll(info.diagnostics.value, c.value, pos.uri)
  }

  /**
   * A resource's diagnostics as written: the logger reads the source position's line
   * and URI before the nil check, and the capture is dereferenced for every policy
   * diagnostic whether or not one was found.
   */
  function ResourceDiagnosticsAsWritten(urn: string, info: Info, captures: CaptureSource): Result<seq<Diagnostic>, Panic>
  {
    if info.sourcePosition.None? then Err(NilSourcePosition(urn))
    else if info.diagnostics.None? then Ok([])
    else
      var pos := info.sourcePosition.value;
      var caps := captures(pos.uri);
      if caps.Err? then Ok([])
      else
        var c := FirstCapture(caps.value, StartRow(pos.line));
        if c.None? then
          if info.diagnostics.value == [] then Ok([]) else Err(NoCapture(pos.uri, StartRow(pos.line)))
        else ConvertAll(info.diagnostics.value, c.value, pos.uri)
  }

  /** A resource's diagnostics appended to those already collected for its file. */
  function Merge(m: map<string, seq<Diagnostic>>, info: Info, ds: seq<Diagnostic>): map<string, seq<Diagnostic>>
  {
    if ds == [] || info.sourcePosition.None? then m
    else
      var uri := info.sourcePosition.value.uri;
      m[uri := (if uri in m then m[uri] else []) + ds]
  }

  /** The outer loop of diagnose over the resources in `order`, for a per-resource rule. */
  function Fold(resources: map<string, Info>, order: seq<string>,
                rd: (string, Info) -> Result<seq<Diagnostic>, Panic>): Grouping
    requires forall i :: 0 <= i < |order| ==> order[i] in resources
    decreases |order|
  {
    if order == [] then Grouped(map[])
    else
      var urn := order[|order| - 1];
      var g := Fold(resources, order[..|order| - 1], rd);
      var ds := rd(urn, resources[urn]);
      if g.Panicked? then g
      else if ds.Err? then Panicked(ds.error)
      else Grouped(Merge(g.byUri, resources[urn], ds.value))
  }

  /** `order` lists each URN of the resources exactly once. */
  predicate Enumerates(order: seq<string>, resources: map<string, Info>)
  {
    && (forall i :: 0 <= i < |order| ==> order[i] in resources)
    && (forall u :: u in resources ==> u in order)
    && (forall i, j :: 0 <= i < j < |order| ==> order[i] != order[j])
  }

  /** diagnose's grouping, with the nil checks corrected. */
  function Group(resources: map<string, Info>, order: seq<string>, captures: CaptureSource): Grouping
    requires Enumerates(order, resources)
  {
    Fold(resources, order, (urn, info) => ResourceDiagnostics(info, captures))
  }

  /** diagnose's grouping as written. */
  function GroupAsWritten(resources: map<string, Info>, order: seq<string>, captures: CaptureSource): Grouping
    requires Enumerates(order, resources)
  {
    Fold(resources, order, (urn, info) => ResourceDiagnosticsAsWritten(urn, info, captures))
  }

  /** The diagnostics the resources in `order` contribute to one file, in order. */
  function PerUri(resources: map<string, Info>, order: seq<string>,
                  rd: (string, Info) -> Result<seq<Diagnostic>, Panic>, uri: string): seq<Diagnostic>
    requires forall i :: 0 <= i < |order| ==> order[i] in resources
    decreases |order|
  {
    if order == [] then []
    else
      var urn := order[|order| - 1];
      var info := resources[urn];
      var ds := rd(urn, info);
      PerUri(resources, order[..|order| - 1], rd, uri)
        + (if ds.Ok? && info.sourcePosition.Some? && info.sourcePosition.value.uri == uri then ds.value else [])
  }

  /**
   * The grouping panics iff some resource's rule panics; otherwise a file has an entry
   * iff some resource contributes to it, and its entry is everything contributed to it,
   * in iteration order.
   */
  lemma {:induction false} FoldMeaning(resources: map<string, Info>, order: seq<string>,
                                       rd: (string, Info) -> Result<seq<Diagnostic>, Panic>, uri: string)
    requires forall i :: 0 <= i < |order| ==> order[i] in resources
    decreases |order|
    ensures Fold(resources, order, rd).Panicked? <==> exists i :: 0 <= i < |order| && rd(order[i], resources[order[i]]).Err?
    ensures Fold(resources, order, rd).Grouped? ==>
      var m := Fold(resources, order, rd).byUri;
      (uri in m <==> PerUri(resources, order, rd, uri) != [])
      && (uri in m ==> m[uri] == PerUri(resources, order, rd, uri))
  {
    if order != [] {
      var n := |order| - 1;
      var pre := order[..n];
      assert forall i :: 0 <= i < n ==> pre[i] == order[i];
      FoldMeaning(resources, pre, rd, uri);
      var g := Fold(resources, pre, rd);
      if g.Panicked? {
        var i :| 0 <= i < n && rd(pre[i], resources[pre[i]]).Err?;
        assert rd(order[i], resources[order[i]]).Err?;
      }
    }
  }

  /** Every diagnostic a resource contributes is about the resource's file. */
  lemma ResourceDiagnosticsAbout(info: Info, captures: CaptureSource)
    ensures ResourceDiagnostics(info, captures).Ok? && info.sourcePosition.Some? ==>
      forall d :: d in ResourceDiagnostics(info, captures).value ==> d.uri == info.sourcePosition.value.uri
  {
    if info.diagnostics.Some? && info.sourcePosition.Some? {
      var pos := info.sourcePosition.value;
      var caps := captures(pos.uri);
      if caps.Ok? && FirstCapture(caps.value, StartRow(pos.line)).Some? {
        ConvertAllMeaning(info.diagnostics.value, FirstCapture(caps.value, StartRow(pos.line)).value, pos.uri);
      }
    }
  }

  /** Under a rule whose diagnostics are about the resource's file, each diagnostic
      filed under a URI is about that file. */
  lemma {:induction false} PerUriAbout(resources: map<string, Info>, order: seq<string>,
                                       rd: (string, Info) -> Result<seq<Diagnostic>, Panic>, uri: string)
    requires forall i :: 0 <= i < |order| ==> order[i] in resources
    requires forall i :: 0 <= i < |order| && rd(order[i], resources[order[i]]).Ok?
                         && resources[order[i]].sourcePosition.Some? ==>
      forall d :: d in rd(order[i], resources[order[i]]).value ==> d.uri == resources[order[i]].sourcePosition.value.uri
    decreases |order|
    ensures forall d :: d in PerUri(resources, order, rd, uri) ==> d.uri == uri
  {
    if order != [] {
      var n := |order| - 1;
      assert forall i :: 0 <= i < n ==> order[..n][i] == order[i];
      PerUriAbout(resources, order[..n], rd, uri);
    }
  }

  /** In the corrected grouping, every diagnostic filed under a URI is about that file. */
  lemma GroupAbout(resources: map<string, Info>, order: seq<string>, captures: CaptureSource, uri: string)
    requires Enumerates(order, resources)
    ensures Group(resources, order, captures).Grouped? && uri in Group(resources, order, captures).byUri ==>
      forall d :: d in Group(resources, order, captures).byUri[uri] ==> d.uri == uri
  {
    var rd := (urn, info) => ResourceDiagnostics(info, captures);
    forall i | 0 <= i < |order|
      ensures rd(order[i], resources[order[i]]).Ok? && resources[order[i]].sourcePosition.Some? ==>
        forall d :: d in rd(order[i], resources[order[i]]).value ==> d.uri == resources[order[i]].sourcePosition.value.uri
    {
      ResourceDiagnosticsAbout(resources[order[i]], captures);
    }
    PerUriAbout(resources, order, rd, uri);
    FoldMeaning(resources, order, rd, uri);
  }

  /** Two rules that agree on every resource in `order` group alike. */
  lemma {:induction false} FoldAgrees(resources: map<string, Info>, order: seq<string>,
                                      rd1: (string, Info) -> Result<seq<Diagnostic>, Panic>,
                                      rd2: (string, Info) -> Result<seq<Diagnostic>, Panic>)
    requires forall i :: 0 <= i < |order| ==> order[i] in resources
    requires forall i :: 0 <= i < |order| ==> rd1(order[i], resources[order[i]]) == rd2(order[i], resources[order[i]])
    decreases |order|
    ensures Fold(resources, order, rd1) == Fold(resources, order, rd2)
  {
    if order != [] {
      var n := |order| - 1;
      assert forall i :: 0 <= i < n ==> order[..n][i] == order[i];
      FoldAgrees(resources, order[..n], rd1, rd2);
    }
  }

  /** Where neither nil pointer can occur, the code as written groups as corrected. */
  lemma AsWrittenAgreesWithoutNils(resources: map<string, Info>, order: seq<string>, captures: CaptureSource)
    requires Enumerates(order, resources)
    requires forall u :: u in resources ==> resources[u].sourcePosition.Some?
    requires forall u :: u in resources && resources[u].diagnostics.Some? && resources[u].diagnostics.value != []
                         && captures(resources[u].sourcePosition.value.uri).Ok? ==>
      FirstCapture(captures(resources[u].sourcePosition.value.uri).value,
                   StartRow(resources[u].sourcePosition.value.line)).Some?
    ensures GroupAsWritten(resources, order, captures) == Group(resources, order, captures)
  {
    var rd1 := (urn, info) => ResourceDiagnosticsAsWritten(urn, info, captures);
    var rd2 := (urn, info) => ResourceDiagnostics(info, captures);
    forall i | 0 <= i < |order|
      ensures rd1(order[i], resources[order[i]]) == rd2(order[i], resources[order[i]])
    {
      assert order[i] in resources;
    }
    FoldAgrees(resources, order, rd1, rd2);
  }

  /** A resource without a source position makes diagnose panic as written; corrected,
      it is skipped. */
  lemma NilSourcePositionPanics(captures: CaptureSource)
    ensures var resources := map["urn:a" := PulumiRun.Info(None, None)];
      GroupAsWritten(resources, ["urn:a"], captures) == Panicked(NilSourcePosition("urn:a"))
      && Group(resources, ["urn:a"], captures) == Grouped(map[])
  {
  }

  /** A resource whose line starts no capture makes diagnose panic as written; corrected,
      it is skipped. */
  lemma MissingCapturePanics(captures: CaptureSource)
    requires captures("file:///index.ts") == Ok([])
    ensures var d := PulumiRun.AnalyzeDiagnostic("p", "pack", "m", PulumiRun.Advisory, "urn:a");
      var resources := map["urn:a" := PulumiRun.Info(Some(PulumiRun.SourcePosition("file:///index.ts", 3, 1)), Some([d]))];
      GroupAsWritten(resources, ["urn:a"], captures) == Panicked(NoCapture("file:///index.ts", 2))
      && Group(resources, ["urn:a"], captures) == Grouped(map[])
  {
    assert StartRow(3) == 2;
  }

  /** The body of diagnose's resource loop for one resource, with the captures cache. */
  method DiagnoseResource(info: Info, captures: CaptureSource, fileCaptures: map<string, seq<Capture>>)
    returns (r: Result<seq<Diagnostic>, Panic>, cache: map<string, seq<Capture>>)
    requires forall u :: u in fileCaptures ==> captures(u) == Ok(fileCaptures[u])
    ensures r == ResourceDiagnostics(info, captures)
    ensures forall u :: u in cache ==> captures(u) == Ok(cache[u])
  {
    cache := fileCaptures;
    if info.diagnostics.None? || info.sourcePosition.None? {
      return Ok([]), cache;
    }
    var pos := info.sourcePosition.value;
    var uri := pos.uri;
    if uri !in cache {
      var caps := captures(uri);
      if caps.Err? {
        return Ok([]), cache;
      }
      cache := cache[uri := caps.value];
    }
    var infos := cache[uri];
    var capture := FindCaptureWithStartLine(infos, Strconv.WrapInt32(pos.line - 1));
    if capture.None? {
      return Ok([]), cache;
    }
    var ds := info.diagnostics.value;
    var diags: seq<Diagnostic> := [];
    for j := 0 to |ds|
      invariant ConvertAll(ds[..j], capture.value, uri) == Ok(diags)
    {
      assert ds[..j + 1][..j] == ds[..j];
      var d := ConvertDiagnostic(ds[j], capture.value, uri);
      if d.Err? {
        ConvertAllPanicExtends(ds, j + 1, capture.value, uri);
        assert ds[..|ds|] == ds;
        return Err(d.error), cache;
      }
      diags := diags + [d.value];
    }
    assert ds[..|ds|] == ds;
    return Ok(diags), cache;
  }

  /**
   * The resource loop of diagnose, with the captures of each file fetched once and kept
   * (a file whose captures cannot be read is tried again for its next resource).
   */
  method DiagnoseResources(resources: map<string, Info>, order: seq<string>, captures: CaptureSource)
    returns (r: Grouping)
    requires Enumerates(order, resources)
    ensures r == Group(resources, order, captures)
  {
    var rd := (urn, info) => ResourceDiagnostics(info, captures);
    var diagnostics: map<string, seq<Diagnostic>> := map[];
    var fileCaptures: map<string, seq<Capture>> := map[];
    for i := 0 to |order|
      invariant Fold(resources, order[..i], rd) == Grouped(diagnostics)
      invariant forall u :: u in fileCaptures ==> captures(u) == Ok(fileCaptures[u])
    {
      var info := resources[order[i]];
      var diags;
      diags, fileCaptures := DiagnoseResource(info, captures, fileCaptures);
      FoldStep(resources, order, i, rd);
      assert diags == rd(order[i], info);
      if diags.Err? {
        FoldPanicExtends(resources, order, i + 1, rd);
        return Panicked(diags.error);
      }
      diagnostics := Merge(diagnostics, info, diags.value);
    }
    assert order[..|order|] == order;
    return Grouped(diagnostics);
  }

  /** One more resource of the fold. */
  lemma FoldStep(resources: map<string, Info>, order: seq<string>, i: nat,
                 rd: (string, Info) -> Result<seq<Diagnostic>, Panic>)
    requires i < |order| && forall k :: 0 <= k < |order| ==> order[k] in resources
    ensures var g := Fold(resources, order[..i], rd);
      var ds := rd(order[i], resources[order[i]]);
      Fold(resources, order[..i + 1], rd)
        == if g.Panicked? then g else if ds.Err? then Panicked(ds.error) else Grouped(Merge(g.byUri, resources[order[i]], ds.value))
  {
    assert order[..i + 1][..i] == order[..i];
  }

  /** Once a prefix of the diagnostics panics, all of them do, the same way. */
  lemma {:induction false} ConvertAllPanicExtends(ds: seq<PulumiRun.AnalyzeDiagnostic>, k: nat, c: Capture, uri: string)
    requires k <= |ds| && ConvertAll(ds[..k], c, uri).Err?
    decreases |ds| - k
    ensures ConvertAll(ds, c, uri) == ConvertAll(ds[..k], c, uri)
  {
    if k < |ds| {
      assert ds[..k + 1][..k] == ds[..k];
      ConvertAllPanicExtends(ds, k + 1, c, uri);
    } else {
      assert ds[..k] == ds;
    }
  }

  /** Once a prefix of the resources panics, the whole grouping does, the same way. */
  lemma {:induction false} FoldPanicExtends(resources: map<string, Info>, order: seq<string>, k: nat,
                                            rd: (string, Info) -> Result<seq<Diagnostic>, Panic>)
    requires k <= |order| && forall i :: 0 <= i < |order| ==> order[i] in resources
    requires Fold(resources, order[..k], rd).Panicked?
    decreases |order| - k
    ensures Fold(resources, order, rd) == Fold(resources, order[..k], rd)
  {
    if k < |order| {
      assert order[..k + 1][..k] == order[..k];
      FoldPanicExtends(resources, order, k + 1, rd);
    } else {
      assert order[..k] == order;
    }
  }

  /** toProtocolDiagnostics for one diagnostic: the message trimmed, the rest copied. */
  function ToProtocol(d: Diagnostic): (p: ProtocolDiagnostic)
    ensures p.message == Strs.TrimSpace(d.message)
  {
    ProtocolDiagnostic(d.range, d.severity, d.source, Strs.TrimSpace(d.message), Some(d.data))
  }

  /** toProtocolDiagnostics: one published diagnostic per diagnostic, in order. */
  method ToProtocolDiagnostics(diags: seq<Diagnostic>) returns (reports: seq<ProtocolDiagnostic>)
    ensures |reports| == |diags|
    ensures forall i :: 0 <= i < |diags| ==> reports[i] == ToProtocol(diags[i])
  {
    reports := [];
    for i := 0 to |diags|
      invariant |reports| == i
      invariant forall k :: 0 <= k < i ==> reports[k] == ToProtocol(diags[k])
    {
      reports := reports + [ToProtocol(diags[i])];
    }
  }

  /** A published message is the diagnostic's message without surrounding whitespace: it
      keeps an already trimmed message, and trimming it again changes nothing. */
  lemma ToProtocolMessage(d: Diagnostic)
    ensures Strs.TrimSpace(ToProtocol(d).message) == ToProtocol(d).message
    ensures ToProtocol(d).range == d.range && ToProtocol(d).data == Some(d.data)
    ensures ToProtocol(d).severity == d.severity && ToProtocol(d).source == d.source
  {
    Strs.TrimSpaceIdempotent(d.message);
  }
}
