/** The overlay resolver: a path resolver whose answers honour the editor's
    unsaved documents (packages/inspector/src/sandbox/index.ts, OverlayedResolver). */
module Overlay {
  import opened Wrappers

  datatype ResolverResult = ResolverResult(resolvedPath: string, code: string)

  /** `resolve(fromPath, toPath)`: the resolved file and its text, or the error
      the resolver rejects with. Module resolution itself is foreign code. */
  type Resolver = (string, string) -> Result<ResolverResult, Error>

  /** The wrapped resolver's answer, with the code replaced by the in-memory
      document stored under exactly the resolved path, when there is one. */
  function Resolve(original: Resolver, documents: map<string, string>, fromPath: string, toPath: string)
    : (r: Result<ResolverResult, Error>)
    ensures r.Failure? <==> original(fromPath, toPath).Failure?
    ensures r.Failure? ==> r == original(fromPath, toPath)
    ensures r.Success? ==> r.value.resolvedPath == original(fromPath, toPath).value.resolvedPath
    ensures r.Success? && r.value.resolvedPath in documents ==>
              r.value.code == documents[r.value.resolvedPath]
    ensures r.Success? && r.value.resolvedPath !in documents ==> r == original(fromPath, toPath)
  {
    match original(fromPath, toPath)
    case Failure(e) => Failure(e)
    case Success(result) =>
      if result.resolvedPath in documents then
        Success(ResolverResult(result.resolvedPath, documents[result.resolvedPath]))
      else
        Success(result)
  }

  /** `new OverlayedResolver(original, documents)`: the overlay as a resolver
      in its own right, answering every request through `Resolve`. */
  function Overlayed(original: Resolver, documents: map<string, string>): (r: Resolver)
    ensures forall fromPath, toPath :: r(fromPath, toPath).Failure? ==> r(fromPath, toPath) == original(fromPath, toPath)
    ensures forall fromPath, toPath :: r(fromPath, toPath).Success? <==> original(fromPath, toPath).Success?
    ensures forall fromPath, toPath | r(fromPath, toPath).Success? ::
              && r(fromPath, toPath).value.resolvedPath == original(fromPath, toPath).value.resolvedPath
              && (r(fromPath, toPath).value.resolvedPath in documents ==>
                    r(fromPath, toPath).value.code == documents[r(fromPath, toPath).value.resolvedPath])
              && (r(fromPath, toPath).value.resolvedPath !in documents ==>
                    r(fromPath, toPath) == original(fromPath, toPath))
  {
    (fromPath: string, toPath: string) => Resolve(original, documents, fromPath, toPath)
  }

  /** Once the documents are cleared (as `dispose` does) the overlay answers
      exactly as the wrapped resolver. */
  lemma EmptyOverlayIsTransparent(original: Resolver, fromPath: string, toPath: string)
    ensures Overlayed(original, map[])(fromPath, toPath) == original(fromPath, toPath)
  {
  }

  /** The resolved path never depends on the documents, and the code of an
      overlaid path never depends on what is on disk. */
  lemma OverlayPathIndependent(original: Resolver, other: Resolver, d1: map<string, string>, d2: map<string, string>,
                               fromPath: string, toPath: string)
    requires original(fromPath, toPath).Success? && other(fromPath, toPath).Success?
    requires original(fromPath, toPath).value.resolvedPath == other(fromPath, toPath).value.resolvedPath
    ensures Resolve(original, d1, fromPath, toPath).value.resolvedPath
         == Resolve(other, d2, fromPath, toPath).value.resolvedPath
    ensures original(fromPath, toPath).value.resolvedPath in d1 ==>
              Resolve(original, d1, fromPath, toPath) == Resolve(other, d1, fromPath, toPath)
  {
  }
}
