/**
  The command line: the BU list file, the cluster configuration file, then
  optionally the exclusion list and the output directory.
*/
module AppConfig {
  import opened Wrappers
  import opened Text

  datatype AppConfig = AppConfig(
    busNumbersCsvPath: string,
    clusterConfigPath: string,
    exclusionsPath: Option<string>,
    outputDirectory: string)

  /** `Path.Combine(".", "output")`. */
  function DefaultOutputDirectory(sep: char): (r: string)
    ensures ValidSeparator(sep) ==> r == "." + [sep] + "output"
  {
    Combine(".", "output", sep)
  }

  /** `AppConfig.FromArgs(args)`; the caller has already checked for at least two arguments. */
  function FromArgs(args: seq<string>, sep: char): AppConfig
    requires |args| >= 2
  {
    AppConfig(
      args[0],
      args[1],
      if |args| > 2 then Some(args[2]) else None,
      if |args| > 3 then args[3] else DefaultOutputDirectory(sep))
  }

  /**
    Each field comes from its own position: the two paths always, the
    exclusion list iff a third argument is given, the output directory iff a
    fourth is given and the default otherwise.
  */
  lemma FromArgsFields(args: seq<string>, sep: char)
    requires |args| >= 2
    ensures var c := FromArgs(args, sep);
      && c.busNumbersCsvPath == args[0]
      && c.clusterConfigPath == args[1]
      && (c.exclusionsPath.Some? <==> |args| > 2)
      && (c.exclusionsPath.Some? ==> c.exclusionsPath.value == args[2])
      && (|args| > 3 ==> c.outputDirectory == args[3])
      && (|args| <= 3 ==> c.outputDirectory == DefaultOutputDirectory(sep))
  {
  }

  /** Arguments beyond the fourth are ignored. */
  lemma ExtraArgsIgnored(args: seq<string>, sep: char)
    requires |args| >= 4
    ensures FromArgs(args, sep) == FromArgs(args[..4], sep)
  {
  }

  /** The shortest argument list that gives back `c`. */
  function ToArgs(c: AppConfig, sep: char): (args: seq<string>)
    ensures 2 <= |args| <= 4
  {
    match c.exclusionsPath
    case None => [c.busNumbersCsvPath, c.clusterConfigPath]
    case Some(exclusions) =>
      if c.outputDirectory == DefaultOutputDirectory(sep) then [c.busNumbersCsvPath, c.clusterConfigPath, exclusions]
      else [c.busNumbersCsvPath, c.clusterConfigPath, exclusions, c.outputDirectory]
  }

  /**
    A configuration can be given on the command line iff it names an
    exclusion list or uses the default output directory: the output
    directory is positional and comes after the exclusion list.
  */
  predicate Representable(c: AppConfig, sep: char) {
    c.exclusionsPath.Some? || c.outputDirectory == DefaultOutputDirectory(sep)
  }

  /** Every configuration `FromArgs` builds can be given on the command line. */
  lemma FromArgsRepresentable(args: seq<string>, sep: char)
    requires |args| >= 2
    ensures Representable(FromArgs(args, sep), sep)
  {
  }

  /** Writing a representable configuration as arguments and reading them back gives it again. */
  lemma ArgsRoundTrip(c: AppConfig, sep: char)
    requires Representable(c, sep)
    ensures FromArgs(ToArgs(c, sep), sep) == c
  {
  }

  /** Reading arguments and writing them back gives the same first four, except a spelled-out default output directory. */
  lemma ArgsCanonical(args: seq<string>, sep: char)
    requires 2 <= |args| <= 4
    requires |args| == 4 ==> args[3] != DefaultOutputDirectory(sep)
    ensures ToArgs(FromArgs(args, sep), sep) == args
  {
  }
}
