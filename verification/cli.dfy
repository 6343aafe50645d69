/** Command-line argument handling shared by the scripts: `process.argv.slice(2)`
    as a list of strings, with the parsers passed in as parameters. */
module Cli {
  import opened Wrappers

  /** `args[i]`, which is `undefined` past the end of the list. */
  function Arg(args: seq<string>, i: nat): (r: Option<string>)
    ensures r.Some? <==> i < |args|
    ensures i < |args| ==> r.value == args[i]
  {
    if i < |args| then Some(args[i]) else None
  }

  /** `arg ? parse(arg) : default`: a missing or empty argument is falsy and takes the default. */
  function ParsedOr(arg: Option<string>, parse: string -> Number, default: real): (r: Number)
    ensures arg.None? || arg.value == "" ==> r == Num(default)
    ensures arg.Some? && arg.value != "" ==> r == parse(arg.value)
  {
    if arg.None? || arg.value == "" then Num(default) else parse(arg.value)
  }
}
