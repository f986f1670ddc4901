/** The values a caller hands to the builder, the builder's errors, and the
    fluent calls a nested-query callback can make. A PHP `Closure` that
    receives the builder and calls its fluent methods is modelled as the
    sequence of those calls (`seq<Cmd>`), so nesting is structural. */
module Commands {
  import opened Text

  /** A PHP value: a string, an integer, null, or an array with string keys
      kept in insertion order. */
  datatype Arg = Str(s: string) | Int(i: int) | Null | Assoc(entries: seq<(string, Arg)>)

  /** PHP's conversion to string of a value that stands where a field name or
      an operator is expected; an array converts to "Array". */
  function ArgText(a: Arg): string
  {
    match a
    case Str(s) => s
    case Int(i) => IntStr(i)
    case Null => ""
    case Assoc(_) => "Array"
  }

  /** The three exceptions `_condition_constructor` raises. */
  datatype BuildError =
    | ParamCount                      // 0 or more than 3 arguments
    | NotArray(given: string)         // the one-argument form without an array
    | ConfusingSymbol(symbol: string) // the three-argument form with a bad operator

  /** The exception message. */
  function Message(e: BuildError): string
  {
    match e
    case ParamCount => "Error number of parameters"
    case NotArray(given) => given + " should be Array"
    case ConfusingSymbol(symbol) => "Confusing Symbol " + symbol
  }

  /** One fluent call. The `or`/`not` variants of the source are the general
      call with its `condition` and `operator` arguments filled in; the
      source's default arguments are the constructors' defaults. */
  datatype Cmd =
    | Table(name: string)
    | Select(cols: seq<string>)
    | Where(args: seq<Arg>)
    | OrWhere(args: seq<Arg>)
    | WhereIn(field: string, data: seq<Arg>, condition: string := "IN", operator: string := "AND")
    | WhereBetween(field: string, low: Arg, high: Arg, operator: string := "AND")
    | WhereNull(field: string, condition: string := "NULL", operator: string := "AND")
    | WhereBrackets(body: seq<Cmd>, operator: string := "AND")
    | WhereExists(body: seq<Cmd>, condition: string := "EXISTS", operator: string := "AND")
    | WhereInSub(field: string, body: seq<Cmd>, condition: string := "IN", operator: string := "AND")
    | FromSub(body: seq<Cmd>)
    | GroupBy(field: string)
    | Having(args: seq<Arg>)
    | OrHaving(args: seq<Arg>)
    | OrderBy(field: string, mode: string := "ASC")
    | Join(table: string, one: string, two: string, kind: string := "INNER")
}
