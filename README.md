# Inspector sandbox service — a Dafny model

This project models the sandbox side of the component inspector: the service
that an editor calls, over an RPC channel, to list the live fibers (elements)
of a running React tree, to read a fiber's static component information and
prop source ranges, and to highlight a fiber in the preview.

Three pieces of logic are modelled and proved:

- **Overlay resolver** (`overlay.dfy`, module `Overlay`): a wrapper around a
  path resolver. When the editor holds an unsaved document for exactly the
  resolved path, that text replaces the code from disk. The resolved path and
  the wrapped resolver's failures pass through unchanged.
- **Fiber registry** (`registry.dfy`, module `Registry`): the map from fiber id
  to fiber. `$getFibers` writes each fetched fiber into it one at a time.
  `Merge` is that fold. Lemmas show that the last fiber with an id wins, that
  ids the fetch does not mention keep their entry, that the fold agrees with an
  all-at-once description (`Registered`), and that refetching the same list
  changes nothing.
- **Inspection service** (`inspector.dfy`, module `Sandbox`, class
  `Inspector`): the fields `fibers`, `documents` and `lastHighlightedId`, and
  the RPC methods. Each method states its whole new state. It also states the
  exact sequence of collaborator calls it makes, which is recorded in the
  ghost field `trace`.

`fibers.dfy` (module `Fibers`) holds the exchanged records as datatypes, and
`TypeInfo` is a closed five-case sum. `wrappers.dfy` holds `Option`, `Result`,
`Outcome` and `Error` (a thrown JavaScript error, identified by its message).
`scenarios.dfy` holds client runs proved from the method contracts alone.

Foreign code is passed in, not modelled:

- The wrapped resolver is a constructor argument of type
  `(fromPath, toPath) -> Result`.
- The component-definition analysis is a constructor argument. It is handed
  the overlay resolver, just as the source builds it over `this.resolver`.
- The bridge's `getFibers` answer is a method argument.
- `getElementForFiber` and `getComponentInstanceInformation` are function
  arguments of the methods that call them.
- `highlightElement` and `clearHighlight` only appear as entries in `trace`.

Awaits are sequential composition. A rejected promise is a `Failure`.

Two behaviours of the code worth noting:

- The registry is not replaced on each fetch. Entries from earlier fetches
  survive, so an id missing from the latest fetch can still be found
  (`Scenarios.StaleIdScenario`).
- In `$highlightFiber` the element lookup runs before the slot is written. A
  failing lookup therefore leaves `lastHighlightedId` unchanged
  (`Scenarios.FailedHighlightScenario`).

## Model

| member | source | states |
|---|---|---|
| `Overlay.Resolve` | packages/inspector/src/sandbox/index.ts:28-40 | fails exactly when the wrapped resolver fails, with its error unchanged; always keeps the wrapped `resolvedPath`; the code is `documents[resolvedPath]` when that key exists, otherwise the result is the wrapped result itself |
| `Overlay.Overlayed` | packages/inspector/src/sandbox/index.ts:22-27 | `new OverlayedResolver(resolver, documents)` as a resolver: for every request it fails exactly as the wrapped one, keeps its resolved path, and substitutes the document stored under that path when there is one |
| `Overlay.EmptyOverlayIsTransparent` | packages/inspector/src/sandbox/index.ts:31-39 | once the documents are cleared, as `dispose` does, the overlay answers exactly as the wrapped resolver |
| `Overlay.OverlayPathIndependent` | packages/inspector/src/sandbox/index.ts:31-36 | the resolved path does not depend on the documents; for an overlaid path the answer does not depend on the code on disk |
| `Registry.Merge` | packages/inspector/src/sandbox/index.ts:118-121 | after writing a list into the registry, its keys are the old keys plus the list's ids |
| `Registry.LastIndex` | packages/inspector/src/sandbox/index.ts:119-121 | for an id in the list, finds the position of the last fiber carrying that id |
| `Registry.MergeLastWins` | packages/inspector/src/sandbox/index.ts:119-121 | among fibers with duplicate ids, the registry holds the last one in the list |
| `Registry.MergeKeepsOthers` | packages/inspector/src/sandbox/index.ts:119-121 | a key the list does not mention keeps the fiber from earlier fetches |
| `Registry.MergeMatchesReference` | packages/inspector/src/sandbox/index.ts:117-123 | the one-at-a-time writes equal the old map overridden, for every listed id, by the last fiber with that id |
| `Registry.MergeIdempotent` | packages/inspector/src/sandbox/index.ts:117-123 | fetching the same list twice leaves the registry as one fetch did |
| `Registry.MergeKeyedById` | packages/inspector/src/sandbox/index.ts:119-121 | a registry whose every entry is stored under its fiber's own id stays so after a fetch |
| `Sandbox.FiberNotFound` | packages/inspector/src/sandbox/index.ts:76 | the error thrown for an unknown id: its message is the fixed prefix followed by the id |
| `Sandbox.FiberNotFoundInjective` | packages/inspector/src/sandbox/index.ts:89-92 | two not-found errors are equal only when thrown for the same id, so the caller can tell which fiber is gone |
| `Sandbox.Inspector.Resolver` | packages/inspector/src/sandbox/index.ts:47-57 | the `this.resolver` field: for every request it answers as the overlay over the wrapped resolver and the documents map as it is now |
| `Sandbox.ImportTarget` | packages/inspector/src/sandbox/index.ts:79 | the target path is the import path, or `'./'` when the import path is null or empty; it is never empty |
| `Sandbox.ExportNamed` | packages/inspector/src/sandbox/index.ts:85 | the export entry is present exactly when the definitions have that name, and then it is that entry |
| `Sandbox.Inspector.constructor` | packages/inspector/src/sandbox/index.ts:44-64 | starts with empty registry and documents, no highlighted id and no calls made; keeps the given resolver and analysis |
| `Sandbox.Inspector.Dispose` | packages/inspector/src/sandbox/index.ts:66-69 | clears the documents and leaves the registry, the highlight slot and the calls alone |
| `Sandbox.Inspector.GetFiberComponentInformation` | packages/inspector/src/sandbox/index.ts:71-86 | unknown id: fails with the not-found error, makes no call, changes nothing; known id: asks the analysis once, over the overlay resolver, with the fiber's path and its import target, propagates its failure, and otherwise returns the entry for the import name, absent when missing |
| `Sandbox.Inspector.GetFiberPropSources` | packages/inspector/src/sandbox/index.ts:88-100 | unknown id: fails, no call, no change; known id: resolves `('/', path)` through the overlay and propagates its failure; otherwise passes the resolved path, the caller's own code and the fiber's code position to the bridge and returns its answer |
| `Sandbox.Inspector.HighlightFiber` | packages/inspector/src/sandbox/index.ts:102-107 | a failing element lookup is returned as a failure, leaves the slot unchanged and applies no highlight; a found element is highlighted once and the slot becomes the id |
| `Sandbox.Inspector.StopHighlightFiber` | packages/inspector/src/sandbox/index.ts:109-115 | an id other than the recorded one (also when none is recorded) changes nothing and clears nothing; the recorded id empties the slot and clears the highlight exactly once |
| `Sandbox.Inspector.GetFibers` | packages/inspector/src/sandbox/index.ts:117-123 | returns the bridge's list unchanged; the registry becomes `Merge` of the old registry and the list, whatever the unused `id` argument is; a registry keyed by fiber id stays so; nothing else changes |
| `Scenarios.StaleStopScenario` | packages/inspector/src/sandbox/index.ts:102-115 | highlight f1, highlight f2, stop f1 leaves f2 highlighted and makes no call; stopping f2 twice empties the slot and calls `clearHighlight` exactly once |
| `Scenarios.FailedHighlightScenario` | packages/inspector/src/sandbox/index.ts:103-106 | a highlight whose element lookup fails reports the failure and keeps the earlier highlighted id |
| `Scenarios.OverlayScenario` | packages/inspector/src/sandbox/index.ts:57-85 | the component information of a fiber is computed from the unsaved document for its import, not from the file on disk; an id that was never fetched is not found |
| `Scenarios.StaleIdScenario` | packages/inspector/src/sandbox/index.ts:117-121 | a fiber from an earlier fetch is still found after a fetch that no longer lists it |
| `Scenarios.RefetchScenario` | packages/inspector/src/sandbox/index.ts:117-123 | fetching an unchanged tree twice returns equal lists and equal registries, whose keys are the tree's ids |

## Left out

- The global singleton, the RPC registration, `rpcProtocol.getProxy` and `window.inspector = this` (index.ts:54, 126-136) are process wiring and transport.
- The `editorProxy` constructor argument is never used by this code.
- The React bridge internals and the static analysis behind `getComponentDefinitions` are foreign code. They are abstract function values with no contract.
- The DOM effects of `highlightElement` and `clearHighlight` are left out; only the calls are recorded. A throw from them is not modelled.
- `super.dispose()` and the `toDispose` list belong to a base class that is not part of this model. So the model does not say when the analysis collaborator is released.
- Promise scheduling and interleaving between awaits are left out. Each RPC method is one sequential step.
- The wrapped resolver is a fixed function of its two arguments. Files on disk changing over time are not modelled.
- Writes to `documents` come from outside this file, through its public field, and the model has no method for them.
- Every write to `documents` in the model stands for an in-place edit (`set`, `delete`, `clear`) of the one map the overlay shares (index.ts:49, 57, 31). Assigning a new map object to the field, which the source's overlay would not see, is not modelled.
- `Sandbox.ExportNamed`: the source indexes a plain JavaScript object. A missing export whose name is an inherited property such as `constructor` would give that property, not `undefined`. The model says absent for every missing name.
- `Sandbox.Inspector.GetFibers`: the `Promise<Fiber[] | undefined>` type allows `undefined`, but this code only ever returns the bridge's list. A bridge that returns no list, which would make `forEach` throw, is not modelled.
