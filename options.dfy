/**
 * The runtime options of efind.h that the command-line and INI readers set:
 * an Options object whose fields the readers update in place.
 */
module Options {
  import opened Wrappers
  import EA = ExecArgs

  /** The bits of the flags field: FLAG_STDIN (1) and FLAG_QUOTE (2). */
  datatype Flag = Stdin | Quote

  /** The values of the fields, as one record. */
  datatype Settings = Settings(
    logLevel: int,
    logColor: bool,
    flags: set<Flag>,
    expr: Option<string>,
    dirs: seq<string>,
    maxDepth: int,
    follow: bool,
    regexType: Option<string>,
    printf: Option<string>,
    exec: seq<EA.Contents>,
    orderby: Option<string>)

  /** struct Options. */
  class Options {
    var logLevel: int
    var logColor: bool
    var flags: set<Flag>
    var expr: Option<string>
    var dirs: seq<string>
    var maxDepth: int
    var follow: bool
    var regexType: Option<string>
    var printf: Option<string>
    var exec: seq<EA.Contents>
    var orderby: Option<string>

    function Snapshot(): Settings
      reads this
    {
      Settings(logLevel, logColor, flags, expr, dirs, maxDepth, follow, regexType, printf, exec, orderby)
    }
  }
}
