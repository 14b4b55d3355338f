/** The analyzer's output types, reduced to what resolution, the cache and the wire read. */
module Model {

  datatype Option<+T> = None | Some(value: T)

  datatype Position = Position(line: int, column: int)
  datatype Range = Range(start: Position, end: Position)

  const ZERO_RANGE := Range(Position(0, 0), Position(0, 0))

  /** NoType is the empty type string: the "any type" sentinel and the type of a zero analysis. */
  datatype ObjectType =
    | NoType | Program | Subprogram | ExternalSubroutine | Copycode | MapObject
    | LocalDataArea | GlobalDataArea | ParameterDataArea | Helproutine | DDM
    | ClassObject | FunctionObject | Dialog | Adapter | TextObject | UnknownObject

  datatype EdgeKind =
    | Calls | CallsDynamic | NavigatesTo | NavigatesToDynamic | Performs
    | Includes | Reads | Writes | UsesDataArea

  datatype Edge = Edge(source: Range, target: Range, kind: EdgeKind, targetName: string, library: string)

  /** Fields no property here looks into, kept only to be compared. */
  type Payload = string

  /** `cached` stands for the other fields the cache persists, `transient` for Diagnostics and AST. */
  datatype FileAnalysis = FileAnalysis(objectType: ObjectType, edges: seq<Edge>, cached: Payload, transient: Payload)

  datatype Library = Library(name: string, path: string, steplibs: seq<string>)

  /** A nil configuration behaves as one with no libraries. */
  datatype Config = Config(libraries: seq<Library>)

  datatype Candidate = Candidate(path: string, name: string, library: string, objectType: ObjectType)

  datatype Diagnostic = AmbiguityWarning(message: string, range: Range)

  type Entries = map<string, FileAnalysis>
}
