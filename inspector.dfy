/** The sandbox-side inspection service (packages/inspector/src/sandbox/index.ts,
    class Inspector): the fiber registry, the in-memory documents the overlay
    resolver reads, and the single highlight slot. Every call the service makes
    into foreign code is recorded, in order, in the ghost `trace`. */
module Sandbox {
  import opened Wrappers
  import opened Fibers
  import Overlay
  import Registry

  /** `ComponentInformationResolver.getComponentDefinitions(fromPath, toPath)`,
      given the resolver it was constructed over: the file's exports by name. */
  type ComponentDefinitions =
    (Overlay.Resolver, string, string) -> Result<map<string, StaticComponentInformation>, Error>

  /** An element handle returned by the bridge's element locator. */
  datatype Element = Element(handle: nat)

  /** A call from the service into a collaborator. */
  datatype Effect =
    | GetFibersCall
    | GetComponentDefinitionsCall(fromPath: string, toPath: string)
    | ResolveCall(fromPath: string, toPath: string)
    | GetComponentInstanceInformationCall(resolvedPath: string, code: string, codePosition: CodeRange)
    | GetElementForFiberCall(id: string)
    | HighlightElementCall(element: Element)
    | ClearHighlightCall

  const NotFoundPrefix := "Could not find fiber with id: "

  /** The error both fiber lookups throw for an unknown id. */
  function FiberNotFound(id: string): (e: Error)
    ensures |e.message| >= |NotFoundPrefix|
    ensures e.message[..|NotFoundPrefix|] == NotFoundPrefix && e.message[|NotFoundPrefix|..] == id
  {
    Error(NotFoundPrefix + id)
  }

  /** The not-found error names the id it was thrown for. */
  lemma FiberNotFoundInjective(id1: string, id2: string)
    requires FiberNotFound(id1) == FiberNotFound(id2)
    ensures id1 == id2
  {
  }

  /** `importPath || './'`: a null or empty import path means the component is
      declared in the file that uses it. */
  function ImportTarget(importPath: Option<string>): (toPath: string)
    ensures toPath != ""
    ensures importPath.Some? && importPath.value != "" ==> toPath == importPath.value
    ensures importPath.None? || importPath.value == "" ==> toPath == "./"
  {
    match importPath
    case Some(p) => if p == "" then "./" else p
    case None => "./"
  }

  /** `definitions[name]`: the entry for an export, absent (not an error) when
      the file has no such export. */
  function ExportNamed(definitions: map<string, StaticComponentInformation>, name: string)
    : (r: Option<StaticComponentInformation>)
    ensures r.Some? <==> name in definitions
    ensures r.Some? ==> r.value == definitions[name]
  {
    if name in definitions then Some(definitions[name]) else None
  }

  class Inspector {
    var fibers: map<string, Fiber>
    var documents: map<string, string>
    var lastHighlightedId: Option<string>
    ghost var trace: seq<Effect>

    /** The resolver handed to the constructor, which the overlay wraps. */
    const originalResolver: Overlay.Resolver
    /** The static-analysis collaborator, built over the overlay resolver. */
    const componentInfoResolver: ComponentDefinitions

    constructor (originalResolver: Overlay.Resolver, componentInfoResolver: ComponentDefinitions)
      ensures fibers == map[] && documents == map[] && lastHighlightedId == None && trace == []
      ensures this.originalResolver == originalResolver
      ensures this.componentInfoResolver == componentInfoResolver
    {
      this.originalResolver := originalResolver;
      this.componentInfoResolver := componentInfoResolver;
      fibers := map[];
      documents := map[];
      lastHighlightedId := None;
      trace := [];
    }

    /** `this.resolver`: the overlay over the documents map as it is now (the
        overlay shares the map, so later edits and `clear` are visible to it). */
    function Resolver(): (r: Overlay.Resolver)
      reads this
      ensures forall fromPath, toPath :: r(fromPath, toPath) == Overlay.Resolve(originalResolver, documents, fromPath, toPath)
    {
      Overlay.Overlayed(originalResolver, documents)
    }

    /** `dispose`: the documents are cleared; nothing else is touched. */
    method Dispose()
      modifies this`documents
      ensures documents == map[]
      ensures fibers == old(fibers) && lastHighlightedId == old(lastHighlightedId) && trace == old(trace)
    {
      documents := map[];
    }

    /** `$getFiberComponentInformation(id)`. */
    method GetFiberComponentInformation(id: string) returns (r: Result<Option<StaticComponentInformation>, Error>)
      modifies this`trace
      ensures fibers == old(fibers) && documents == old(documents) && lastHighlightedId == old(lastHighlightedId)
      ensures id !in fibers ==> r == Failure(FiberNotFound(id)) && trace == old(trace)
      ensures id in fibers ==>
        var fiber := fibers[id];
        var fromPath := fiber.location.path;
        var toPath := ImportTarget(fiber.importLocation.importPath);
        var definitions := componentInfoResolver(Resolver(), fromPath, toPath);
        && trace == old(trace) + [GetComponentDefinitionsCall(fromPath, toPath)]
        && (definitions.Failure? ==> r == Failure(definitions.error))
        && (definitions.Success? ==> r == Success(ExportNamed(definitions.value, fiber.importLocation.importName)))
    {
      if id !in fibers {
        return Failure(FiberNotFound(id));
      }
      var fiber := fibers[id];
      var fromPath := fiber.location.path;
      var toPath := ImportTarget(fiber.importLocation.importPath);
      trace := trace + [GetComponentDefinitionsCall(fromPath, toPath)];
      var definitions := componentInfoResolver(Resolver(), fromPath, toPath);
      match definitions
      case Failure(e) =>
        r := Failure(e);
      case Success(defs) =>
        r := Success(ExportNamed(defs, fiber.importLocation.importName));
    }

    /** `$getFiberPropSources(id, code)`: the bridge is asked about the caller's
        `code` at the fiber's position in its overlay-resolved file. */
    method GetFiberPropSources(
      id: string, code: string,
      getComponentInstanceInformation: (string, string, CodeRange) -> Result<FiberSourceInformation, Error>)
      returns (r: Result<FiberSourceInformation, Error>)
      modifies this`trace
      ensures fibers == old(fibers) && documents == old(documents) && lastHighlightedId == old(lastHighlightedId)
      ensures id !in fibers ==> r == Failure(FiberNotFound(id)) && trace == old(trace)
      ensures id in fibers ==>
        var location := fibers[id].location;
        var resolved := Overlay.Resolve(originalResolver, documents, "/", location.path);
        && (resolved.Failure? ==>
              r == Failure(resolved.error) && trace == old(trace) + [ResolveCall("/", location.path)])
        && (resolved.Success? ==>
              var call := GetComponentInstanceInformationCall(resolved.value.resolvedPath, code, location.codePosition);
              && r == getComponentInstanceInformation(resolved.value.resolvedPath, code, location.codePosition)
              && trace == old(trace) + [ResolveCall("/", location.path), call])
    {
      if id !in fibers {
        return Failure(FiberNotFound(id));
      }
      var location := fibers[id].location;
      trace := trace + [ResolveCall("/", location.path)];
      var resolveInfo := Resolver()("/", location.path);
      match resolveInfo
      case Failure(e) =>
        r := Failure(e);
      case Success(info) =>
        trace := trace + [GetComponentInstanceInformationCall(info.resolvedPath, code, location.codePosition)];
        r := getComponentInstanceInformation(info.resolvedPath, code, location.codePosition);
    }

    /** `$highlightFiber(id)`: the element lookup runs before the slot is
        written, so a failing lookup leaves the slot and the view alone. */
    method HighlightFiber(id: string, getElementForFiber: string -> Result<Element, Error>) returns (r: Outcome<Error>)
      modifies this`lastHighlightedId, this`trace
      ensures fibers == old(fibers) && documents == old(documents)
      ensures getElementForFiber(id).Failure? ==>
        && r == Fail(getElementForFiber(id).error)
        && lastHighlightedId == old(lastHighlightedId)
        && trace == old(trace) + [GetElementForFiberCall(id)]
      ensures getElementForFiber(id).Success? ==>
        && r == Pass
        && lastHighlightedId == Some(id)
        && trace == old(trace) + [GetElementForFiberCall(id), HighlightElementCall(getElementForFiber(id).value)]
    {
      trace := trace + [GetElementForFiberCall(id)];
      var element := getElementForFiber(id);
      match element
      case Failure(e) =>
        r := Fail(e);
      case Success(el) =>
        lastHighlightedId := Some(id);
        trace := trace + [HighlightElementCall(el)];
        r := Pass;
    }

    /** `$stopHighlightFiber(id)`: only a stop for the recorded id clears. */
    method StopHighlightFiber(id: string)
      modifies this`lastHighlightedId, this`trace
      ensures fibers == old(fibers) && documents == old(documents)
      ensures old(lastHighlightedId) != Some(id) ==>
        lastHighlightedId == old(lastHighlightedId) && trace == old(trace)
      ensures old(lastHighlightedId) == Some(id) ==>
        lastHighlightedId == None && trace == old(trace) + [ClearHighlightCall]
    {
      if lastHighlightedId != Some(id) {
        return;
      }
      lastHighlightedId := None;
      trace := trace + [ClearHighlightCall];
    }

    /** `$getFibers(id?)`: every fiber the bridge lists is written into the
        registry in list order; the `id` argument is unused. */
    method GetFibers(id: Option<string>, bridgeFibers: seq<Fiber>) returns (r: seq<Fiber>)
      modifies this`fibers, this`trace
      ensures r == bridgeFibers
      ensures fibers == Registry.Merge(old(fibers), bridgeFibers)
      ensures documents == old(documents) && lastHighlightedId == old(lastHighlightedId)
      ensures trace == old(trace) + [GetFibersCall]
      ensures Registry.KeyedById(old(fibers)) ==> Registry.KeyedById(fibers)
    {
      trace := trace + [GetFibersCall];
      var i := 0;
      while i < |bridgeFibers|
        invariant 0 <= i <= |bridgeFibers|
        invariant fibers == Registry.Merge(old(fibers), bridgeFibers[..i])
        invariant trace == old(trace) + [GetFibersCall]
      {
        var fiber := bridgeFibers[i];
        assert bridgeFibers[..i + 1][..i] == bridgeFibers[..i];
        fibers := fibers[fiber.id := fiber];
        i := i + 1;
      }
      assert bridgeFibers[..i] == bridgeFibers;
      if Registry.KeyedById(old(fibers)) {
        Registry.MergeKeyedById(old(fibers), bridgeFibers);
      }
      r := bridgeFibers;
    }
  }
}
