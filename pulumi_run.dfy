/**
 * The resource store a preview run fills from gRPC log events (pulumicommand/run.go):
 * one record per resource URN, holding the resource's source position and its policy
 * diagnostics. Records are shared objects, created on first use and updated in place.
 *
 * Log tailing and the protojson decoding of entries are left out: an event arrives with
 * its method name and, for each of the three typed shapes, what decoding the entry into
 * that shape gives (None when it fails).
 */
module PulumiRun {
  import opened Wrappers

  /** rpc.EnforcementLevel: the four levels the server knows, or some other value. */
  datatype Level = Advisory | Mandatory | Remediate | Disabled | UnknownLevel(value: int)

  datatype SourcePosition = SourcePosition(uri: string, line: int, column: int)

  datatype AnalyzeDiagnostic = AnalyzeDiagnostic(policyName: string, policyPackName: string, message: string,
                                                 enforcementLevel: Level, urn: string)

  /** A record's value. None is a nil pointer or a nil list. */
  datatype Info = Info(sourcePosition: Option<SourcePosition>, diagnostics: Option<seq<AnalyzeDiagnostic>>)

  const EmptyInfo := Info(None, None)

  class ResourceInfo {
    var sourcePosition: Option<SourcePosition>
    var diagnostics: Option<seq<AnalyzeDiagnostic>>

    constructor()
      ensures sourcePosition.None? && diagnostics.None?
    {
      sourcePosition := None;
      diagnostics := None;
    }

    function Value(): Info
      reads this
    {
      Info(sourcePosition, diagnostics)
    }

    method SetSourcePosition(pos: Option<SourcePosition>)
      modifies this`sourcePosition
      ensures Value() == old(Value()).(sourcePosition := pos)
    {
      sourcePosition := pos;
    }

    /** AddDiagnostic: append, starting a nil list. */
    method AddDiagnostic(d: AnalyzeDiagnostic)
      modifies this`diagnostics
      ensures Value() == Added(old(Value()), d)
    {
      diagnostics := Some(DiagnosticsOf(diagnostics) + [d]);
    }

    method SetDiagnostics(ds: Option<seq<AnalyzeDiagnostic>>)
      modifies this`diagnostics
      ensures Value() == old(Value()).(diagnostics := ds)
    {
      diagnostics := ds;
    }
  }

  function DiagnosticsOf(ds: Option<seq<AnalyzeDiagnostic>>): seq<AnalyzeDiagnostic>
  {
    if ds.Some? then ds.value else []
  }

  function Added(i: Info, d: AnalyzeDiagnostic): Info
  {
    i.(diagnostics := Some(DiagnosticsOf(i.diagnostics) + [d]))
  }

  /** The record of a URN in a store's contents, an empty one when there is none. */
  function InfoOf(c: map<string, Info>, urn: string): Info
  {
    if urn in c then c[urn] else EmptyInfo
  }

  /** The gRPC methods the store listens to. */
  const RegisterResourceMethod := "/pulumirpc.ResourceMonitor/RegisterResource"
  const AnalyzeStackMethod := "/pulumirpc.Analyzer/AnalyzeStack"
  const AnalyzeMethod := "/pulumirpc.Analyzer/Analyze"

  datatype RegisterResourceEntry = RegisterResourceEntry(requestSourcePosition: Option<SourcePosition>, responseUrn: string)
  datatype AnalyzeStackEntry = AnalyzeStackEntry(responseDiagnostics: Option<seq<AnalyzeDiagnostic>>)
  datatype AnalyzeEntry = AnalyzeEntry(requestUrn: string, responseDiagnostics: Option<seq<AnalyzeDiagnostic>>)

  datatype GrpcEntry = GrpcEntry(methodName: string, asRegister: Option<RegisterResourceEntry>,
                                 asAnalyzeStack: Option<AnalyzeStackEntry>, asAnalyze: Option<AnalyzeEntry>)

  /** The AnalyzeStack fold: each diagnostic appended to the record of its own URN. */
  function AddAll(c: map<string, Info>, ds: seq<AnalyzeDiagnostic>): map<string, Info>
    decreases |ds|
  {
    if ds == [] then c
    else
      var c' := AddAll(c, ds[..|ds| - 1]);
      var d := ds[|ds| - 1];
      c'[d.urn := Added(InfoOf(c', d.urn), d)]
  }

  /** handleGrpcEvent on the store's contents. */
  function HandledEvent(c: map<string, Info>, evt: GrpcEntry): map<string, Info>
  {
    if evt.methodName == RegisterResourceMethod then
      match evt.asRegister
      case None => c
      case Some(e) => c[e.responseUrn := InfoOf(c, e.responseUrn).(sourcePosition := e.requestSourcePosition)]
    else if evt.methodName == AnalyzeStackMethod then
      match evt.asAnalyzeStack
      case None => c
      case Some(e) => if e.responseDiagnostics.None? then c else AddAll(c, e.responseDiagnostics.value)
    else if evt.methodName == AnalyzeMethod then
      match evt.asAnalyze
      case None => c
      case Some(e) =>
        if e.responseDiagnostics.None? then c
        else c[e.requestUrn := InfoOf(c, e.requestUrn).(diagnostics := e.responseDiagnostics)]
    else c
  }

  function Filter(ds: seq<AnalyzeDiagnostic>, urn: string): seq<AnalyzeDiagnostic>
    decreases |ds|
  {
    if ds == [] then []
    else Filter(ds[..|ds| - 1], urn) + (if ds[|ds| - 1].urn == urn then [ds[|ds| - 1]] else [])
  }

  /**
   * After an AnalyzeStack fold, a URN has a record iff it had one or some diagnostic names
   * it; its source position is untouched, and its diagnostics are its old ones followed
   * by exactly the diagnostics naming it, in order.
   */
  lemma {:induction false} AddAllContents(c: map<string, Info>, ds: seq<AnalyzeDiagnostic>, urn: string)
    decreases |ds|
    ensures urn in AddAll(c, ds) <==> urn in c || Filter(ds, urn) != []
    ensures InfoOf(AddAll(c, ds), urn).sourcePosition == InfoOf(c, urn).sourcePosition
    ensures Filter(ds, urn) != [] ==>
      AddAll(c, ds)[urn].diagnostics == Some(DiagnosticsOf(InfoOf(c, urn).diagnostics) + Filter(ds, urn))
    ensures Filter(ds, urn) == [] ==> InfoOf(AddAll(c, ds), urn) == InfoOf(c, urn)
  {
    if ds != [] {
      AddAllContents(c, ds[..|ds| - 1], urn);
      var d := ds[|ds| - 1];
      var f := Filter(ds[..|ds| - 1], urn);
      if d.urn == urn {
        if f == [] {
          assert DiagnosticsOf(InfoOf(c, urn).diagnostics) + [d]
              == DiagnosticsOf(InfoOf(c, urn).diagnostics) + Filter(ds, urn);
        } else {
          assert DiagnosticsOf(InfoOf(c, urn).diagnostics) + f + [d]
              == DiagnosticsOf(InfoOf(c, urn).diagnostics) + Filter(ds, urn);
        }
      } else {
        assert Filter(ds, urn) == f;
      }
    }
  }

  /** RegisterResource sets only the response URN's source position; Analyze replaces
      only the request URN's diagnostics; other methods, failed decodes and nil lists
      change nothing. */
  lemma HandledEventTouches(c: map<string, Info>, evt: GrpcEntry, urn: string)
    ensures evt.methodName !in {RegisterResourceMethod, AnalyzeStackMethod, AnalyzeMethod} ==> HandledEvent(c, evt) == c
    ensures evt.methodName == RegisterResourceMethod && evt.asRegister.Some? ==>
      var e := evt.asRegister.value;
      HandledEvent(c, evt)[e.responseUrn] == InfoOf(c, e.responseUrn).(sourcePosition := e.requestSourcePosition)
      && (urn != e.responseUrn ==>
            (urn in HandledEvent(c, evt) <==> urn in c) && InfoOf(HandledEvent(c, evt), urn) == InfoOf(c, urn))
    ensures evt.methodName == AnalyzeMethod && evt.asAnalyze.Some? && evt.asAnalyze.value.responseDiagnostics.Some? ==>
      var e := evt.asAnalyze.value;
      HandledEvent(c, evt)[e.requestUrn] == InfoOf(c, e.requestUrn).(diagnostics := e.responseDiagnostics)
      && (urn != e.requestUrn ==>
            (urn in HandledEvent(c, evt) <==> urn in c) && InfoOf(HandledEvent(c, evt), urn) == InfoOf(c, urn))
    ensures evt.methodName == AnalyzeStackMethod && (evt.asAnalyzeStack.None? || evt.asAnalyzeStack.value.responseDiagnostics.None?) ==>
      HandledEvent(c, evt) == c
    ensures evt.methodName == AnalyzeMethod && (evt.asAnalyze.None? || evt.asAnalyze.value.responseDiagnostics.None?) ==>
      HandledEvent(c, evt) == c
    ensures evt.methodName == RegisterResourceMethod && evt.asRegister.None? ==> HandledEvent(c, evt) == c
  {
  }

  class ResourceStore {
    var resources: map<string, ResourceInfo>

    constructor()
      ensures resources == map[]
    {
      resources := map[];
    }

    /** Distinct URNs have distinct records. */
    ghost predicate Valid()
      reads this
    {
      forall u, v :: u in resources && v in resources && u != v ==> resources[u] != resources[v]
    }

    function Contents(): map<string, Info>
      reads this, resources.Values
    {
      map u | u in resources :: resources[u].Value()
    }

    /** GetResourceInfo: the record and whether there is one, creating nothing. */
    method GetResourceInfo(urn: string) returns (info: ResourceInfo?, ok: bool)
      ensures ok <==> urn in resources
      ensures ok ==> info == resources[urn]
      ensures !ok ==> info == null
    {
      if urn in resources {
        return resources[urn], true;
      }
      return null, false;
    }

    /** getOrCreateResourceInfo: the existing record, or a new empty one stored first. */
    method GetOrCreate(urn: string) returns (info: ResourceInfo)
      requires Valid()
      modifies this`resources
      ensures Valid() && urn in resources && info == resources[urn]
      ensures urn in old(resources) ==> resources == old(resources)
      ensures urn !in old(resources) ==> fresh(info) && resources == old(resources)[urn := info]
      ensures Contents() == old(Contents())[urn := InfoOf(old(Contents()), urn)]
    {
      if urn !in resources {
        info := new ResourceInfo();
        resources := resources[urn := info];
      }
      info := resources[urn];
    }

    /** handleRegisterResource: the response URN's record gets the request's position. */
    method HandleRegisterResource(e: RegisterResourceEntry)
      requires Valid()
      modifies this`resources, resources.Values
      ensures Valid()
      ensures Contents() == old(Contents())[e.responseUrn := InfoOf(old(Contents()), e.responseUrn).(sourcePosition := e.requestSourcePosition)]
    {
      var info := GetOrCreate(e.responseUrn);
      info.SetSourcePosition(e.requestSourcePosition);
    }

    /** One step of handleAnalyzeStack: the diagnostic appended to its URN's record. */
    method AddDiagnostic(d: AnalyzeDiagnostic)
      requires Valid()
      modifies this`resources, resources.Values
      ensures Valid()
      ensures forall u :: u in resources ==> resources[u] in old(resources.Values) || fresh(resources[u])
      ensures Contents() == old(Contents())[d.urn := Added(InfoOf(old(Contents()), d.urn), d)]
    {
      var info := GetOrCreate(d.urn);
      ghost var c := Contents();
      info.AddDiagnostic(d);
      assert forall u :: u in resources && u != d.urn ==> resources[u].Value() == c[u];
      assert Contents() == c[d.urn := Added(c[d.urn], d)];
    }

    /** handleAnalyzeStack: each diagnostic appended to the record of its URN. */
    method HandleAnalyzeStack(ds: seq<AnalyzeDiagnostic>)
      requires Valid()
      modifies this`resources, resources.Values
      ensures Valid()
      ensures Contents() == AddAll(old(Contents()), ds)
    {
      for i := 0 to |ds|
        invariant Valid()
        invariant forall u :: u in resources ==> resources[u] in old(resources.Values) || fresh(resources[u])
        invariant Contents() == AddAll(old(Contents()), ds[..i])
      {
        AddDiagnostic(ds[i]);
        assert ds[..i + 1][..i] == ds[..i];
      }
      assert ds[..|ds|] == ds;
    }

    /** handleAnalyze: the request URN's record gets the response's diagnostics. */
    method HandleAnalyze(urn: string, ds: seq<AnalyzeDiagnostic>)
      requires Valid()
      modifies this`resources, resources.Values
      ensures Valid()
      ensures Contents() == old(Contents())[urn := InfoOf(old(Contents()), urn).(diagnostics := Some(ds))]
    {
      var info := GetOrCreate(urn);
      info.SetDiagnostics(Some(ds));
    }

    /** handleGrpcEvent: dispatch on the method; failed decodes and nil lists are ignored. */
    method HandleGrpcEvent(evt: GrpcEntry)
      requires Valid()
      modifies this`resources, resources.Values
      ensures Valid()
      ensures Contents() == HandledEvent(old(Contents()), evt)
    {
      if evt.methodName == RegisterResourceMethod {
        if evt.asRegister.Some? {
          HandleRegisterResource(evt.asRegister.value);
        }
      } else if evt.methodName == AnalyzeStackMethod {
        if evt.asAnalyzeStack.Some? && evt.asAnalyzeStack.value.responseDiagnostics.Some? {
          HandleAnalyzeStack(evt.asAnalyzeStack.value.responseDiagnostics.value);
        }
      } else if evt.methodName == AnalyzeMethod {
        if evt.asAnalyze.Some? && evt.asAnalyze.value.responseDiagnostics.Some? {
          HandleAnalyze(evt.asAnalyze.value.requestUrn, evt.asAnalyze.value.responseDiagnostics.value);
        }
      }
    }
  }
}
