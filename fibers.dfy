/** The records exchanged between the editor and the sandbox
    (packages/inspector/src/common/fibers.ts). They carry no behaviour. */
module Fibers {
  import opened Wrappers

  /** A line/column range in a source file. */
  datatype CodeRange = CodeRange(
    startLineNumber: int,
    startColumnNumber: int,
    endLineNumber: int,
    endColumnNumber: int)

  /** The file and the range of a fiber's creation call. */
  datatype CodeLocation = CodeLocation(path: string, codePosition: CodeRange)

  /** How the component symbol was imported; `importPath` is null for a
      component declared in the file that uses it. */
  datatype ImportLocation = ImportLocation(importName: string, importPath: Option<string>)

  /** A snapshot of one element of the inspected component tree. */
  datatype Fiber = Fiber(
    id: string,
    name: Option<string>,
    inProject: bool,
    location: CodeLocation,
    importLocation: ImportLocation,
    parentFiberId: Option<string>,
    depth: int,
    childIndex: int)

  /** One option of a union of string literals (its `name` is always 'literal'). */
  datatype UnionOption = Literal(value: string)

  /** The closed set of prop type shapes. */
  datatype TypeInfo =
    | StringType
    | BooleanType
    | UnionType(options: seq<UnionOption>)
    | ObjectType
    | NumberType

  datatype DefaultValue = DefaultValue(computed: bool, value: string)

  datatype StaticPropInfo = StaticPropInfo(
    name: string,
    required: bool,
    description: Option<string>,
    defaultValue: Option<DefaultValue>,
    typeInfo: Option<TypeInfo>)

  /** What static analysis of a source file says about one exported component. */
  datatype StaticComponentInformation = StaticComponentInformation(
    name: string,
    description: Option<string>,
    props: seq<StaticPropInfo>)

  /** Where one prop is written at a usage site. */
  datatype SourcePropInfo = SourcePropInfo(
    name: string,
    definitionPosition: CodeRange,
    namePosition: CodeRange,
    valuePosition: Option<CodeRange>)

  /** Per-usage-site prop source ranges, keyed by prop name. */
  datatype FiberSourceInformation = FiberSourceInformation(props: map<string, SourcePropInfo>)
}
