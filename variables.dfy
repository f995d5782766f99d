/**
 * The values the variable service stores and exchanges: variable definitions,
 * resolution requests, resolved variables, and the three shapes in which a
 * caller may name the variable to resolve.
 */
module Variables {
  import opened Wrappers

  /** One declared argument of a variable. */
  datatype ArgDescription = ArgDescription(name: string, description: string)

  /**
   * A variable definition. `name` is the case-insensitive identity in the
   * registry; `id` names the contributing provider; `displayLabel` defaults to `name`
   * (it is called `label` in the source, a name Dafny reserves as a keyword)
   * in user interfaces; `args`, when present and non-empty, declares arguments.
   */
  datatype Variable = Variable(
    id: string,
    name: string,
    description: string,
    displayLabel: Option<string>,
    args: Option<seq<ArgDescription>>)

  /** What probes and resolvers receive: the stored definition and the optional argument. */
  datatype ResolutionRequest = ResolutionRequest(variable: Variable, arg: Option<string>)

  /** What a resolution yields: `value` is inserted at the usage site, `contextValue` is extra material. */
  datatype ResolvedVariable = ResolvedVariable(
    variable: Variable,
    arg: Option<string>,
    value: string,
    contextValue: Option<string>)

  /**
   * How a caller names the variable to resolve: a bare name, a name with an
   * optional argument, or a full resolution request.
   */
  datatype VariableArg =
    | ByName(name: string)
    | ByNameAndArg(variable: string, arg: Option<string>)
    | ByRequest(request: ResolutionRequest)

  /** The name a request refers to. */
  function RequestedName(request: VariableArg): string {
    match request
    case ByName(name) => name
    case ByNameAndArg(name, _) => name
    case ByRequest(rq) => rq.variable.name
  }

  /** The argument a request carries: none for a bare name. */
  function RequestedArg(request: VariableArg): Option<string> {
    match request
    case ByName(_) => None
    case ByNameAndArg(_, arg) => arg
    case ByRequest(rq) => rq.arg
  }
}
