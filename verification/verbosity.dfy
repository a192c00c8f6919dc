/** The `-v` counter of the command line and the log filter it selects. */
module Verbosity {
  import opened Results

  datatype Level = Warn | Info | Debug | Trace

  /** The logger's name for a level, as written into `RUST_LOG`. */
  function Name(l: Level): string
  {
    match l
    case Warn => "warn"
    case Info => "info"
    case Debug => "debug"
    case Trace => "trace"
  }

  /** How much a level lets through: `Warn` least, `Trace` most. */
  function Detail(l: Level): nat
  {
    match l
    case Warn => 0
    case Info => 1
    case Debug => 2
    case Trace => 3
  }

  function ParseLevel(s: string): Option<Level>
  {
    if s == "warn" then Some(Warn)
    else if s == "info" then Some(Info)
    else if s == "debug" then Some(Debug)
    else if s == "trace" then Some(Trace)
    else None
  }

  /** The level for a number of `-v` flags; defined for every count. */
  function LevelFor(verbosity: nat): (l: Level)
    ensures Detail(l) == if verbosity < 3 then verbosity else 3
    ensures Name(l) == "warn" <==> verbosity == 0
    ensures Name(l) == "info" <==> verbosity == 1
    ensures Name(l) == "debug" <==> verbosity == 2
    ensures Name(l) == "trace" <==> verbosity >= 3
  {
    match verbosity
    case 0 => Warn
    case 1 => Info
    case 2 => Debug
    case _ => Trace
  }

  /** The crate the filter is scoped to (`module_path!()` in the binary's root). */
  const CratePath := "oktaws"

  /** The `RUST_LOG` value: `<crate>=<level>`. */
  function LogFilter(verbosity: nat): (f: string)
    ensures |f| > |CratePath| + 1
    ensures f[..|CratePath|] == CratePath && f[|CratePath|] == '='
    ensures ParseLevel(f[|CratePath| + 1..]) == Some(LevelFor(verbosity))
  {
    var l := LevelFor(verbosity);
    NameRoundTrip(l);
    CratePath + "=" + Name(l)
  }

  lemma NameRoundTrip(l: Level)
    ensures ParseLevel(Name(l)) == Some(l)
  {
  }

  /** More `-v` flags never make the log quieter. */
  lemma LevelMonotone(a: nat, b: nat)
    requires a <= b
    ensures Detail(LevelFor(a)) <= Detail(LevelFor(b))
  {
  }
}
