/** Client runs of the inspection service, proved from the method contracts alone. */
module Scenarios {
  import opened Wrappers
  import opened Fibers
  import Overlay
  import Sandbox
  import Registry

  /** A resolver that knows one import and one file on disk. */
  function DiskResolver(fromPath: string, toPath: string): Result<Overlay.ResolverResult, Error>
  {
    if fromPath == "/app/App.tsx" && toPath == "./Button" then
      Success(Overlay.ResolverResult("/app/Button.tsx", "export const Button = () => 'on disk'"))
    else if fromPath == "/" then
      Success(Overlay.ResolverResult(toPath, ""))
    else
      Failure(Error("Cannot find module " + toPath))
  }

  /** A stand-in analysis: resolves the import and reports one export whose
      description is the text it read. */
  function Analyze(resolver: Overlay.Resolver, fromPath: string, toPath: string)
    : Result<map<string, StaticComponentInformation>, Error>
  {
    match resolver(fromPath, toPath)
    case Failure(e) => Failure(e)
    case Success(file) => Success(map["Button" := StaticComponentInformation("Button", Some(file.code), [])])
  }

  function Origin(): CodeRange { CodeRange(1, 1, 1, 10) }

  function ButtonFiber(id: string): Fiber
  {
    Fiber(id, Some("Button"), true, CodeLocation("/app/App.tsx", Origin()),
          ImportLocation("Button", Some("./Button")), None, 1, 0)
  }

  /** Highlight f1, highlight f2, stop f1: the stale stop is a no-op and f2
      stays highlighted; stopping f2 clears once, and a repeat does nothing. */
  method StaleStopScenario() returns (afterStaleStop: Option<string>, afterStops: Option<string>,
                                      ghost staleStopCalls: seq<Sandbox.Effect>, ghost stopCalls: seq<Sandbox.Effect>)
    ensures afterStaleStop == Some("f2") && staleStopCalls == []
    ensures afterStops == None && stopCalls == [Sandbox.ClearHighlightCall]
  {
    var inspector := new Sandbox.Inspector(DiskResolver, Analyze);
    var lookup := (id: string) => Success(Sandbox.Element(|id|));
    var _ := inspector.HighlightFiber("f1", lookup);
    var _ := inspector.HighlightFiber("f2", lookup);
    ghost var before := inspector.trace;
    inspector.StopHighlightFiber("f1");
    staleStopCalls := inspector.trace[|before|..];
    afterStaleStop := inspector.lastHighlightedId;
    inspector.StopHighlightFiber("f2");
    inspector.StopHighlightFiber("f2");
    stopCalls := inspector.trace[|before|..];
    afterStops := inspector.lastHighlightedId;
  }

  /** A failing element lookup keeps the previously highlighted id. */
  method FailedHighlightScenario() returns (slot: Option<string>, outcome: Outcome<Error>)
    ensures slot == Some("f1")
    ensures outcome == Fail(Error("no element"))
  {
    var inspector := new Sandbox.Inspector(DiskResolver, Analyze);
    var lookup := (id: string) => if id == "f1" then Success(Sandbox.Element(1)) else Failure(Error("no element"));
    var _ := inspector.HighlightFiber("f1", lookup);
    outcome := inspector.HighlightFiber("gone", lookup);
    slot := inspector.lastHighlightedId;
  }

  /** The component information of f1 is read from the unsaved Button.tsx,
      not from the file on disk; an id never fetched is not found. The write
      to `documents` stands for an in-place `documents.set` on the map the
      overlay shares, not for assigning a new map to the field. */
  method OverlayScenario() returns (info: Result<Option<StaticComponentInformation>, Error>,
                                    unknown: Result<Option<StaticComponentInformation>, Error>)
    ensures info == Success(Some(StaticComponentInformation("Button", Some("export const Button = (p) => null"), [])))
    ensures unknown == Failure(Sandbox.FiberNotFound("f9"))
  {
    var inspector := new Sandbox.Inspector(DiskResolver, Analyze);
    inspector.documents := map["/app/Button.tsx" := "export const Button = (p) => null"];
    var _ := inspector.GetFibers(None, [ButtonFiber("f1")]);
    assert Registry.Ids([ButtonFiber("f1")]) == {"f1"};
    assert inspector.fibers == map["f1" := ButtonFiber("f1")];
    info := inspector.GetFiberComponentInformation("f1");
    unknown := inspector.GetFiberComponentInformation("f9");
  }

  /** The registry merges: a fiber from an earlier fetch is still found after
      a fetch that no longer lists it. */
  method StaleIdScenario() returns (stale: Result<Option<StaticComponentInformation>, Error>)
    ensures stale.Success?
  {
    var inspector := new Sandbox.Inspector(DiskResolver, Analyze);
    var _ := inspector.GetFibers(None, [ButtonFiber("f1")]);
    var _ := inspector.GetFibers(None, [ButtonFiber("f2")]);
    Registry.MergeKeepsOthers(map["f1" := ButtonFiber("f1")], [ButtonFiber("f2")], "f1");
    stale := inspector.GetFiberComponentInformation("f1");
  }

  /** Fetching an unchanged tree twice returns equal lists and leaves the
      registry as the first fetch left it. */
  method RefetchScenario(tree: seq<Fiber>) returns (first: seq<Fiber>, second: seq<Fiber>,
                                                  afterFirst: map<string, Fiber>, afterSecond: map<string, Fiber>)
    ensures first == second == tree
    ensures afterFirst == afterSecond
    ensures forall k :: k in afterSecond <==> k in Registry.Ids(tree)
  {
    var inspector := new Sandbox.Inspector(DiskResolver, Analyze);
    first := inspector.GetFibers(None, tree);
    afterFirst := inspector.fibers;
    second := inspector.GetFibers(Some("ignored"), tree);
    afterSecond := inspector.fibers;
    Registry.MergeIdempotent(map[], tree);
  }
}
