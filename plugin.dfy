/** Running a plugin (plugin/plugin.go): the command line of plugin.yaml
    is expanded, split on spaces into the program and its arguments, the
    caller's arguments are appended, and an exit status of 1 counts as a
    policy failure reported by the plugin rather than an error. Expanding
    environment variables and running the process are parameters. */
module Plugin {
  import opened Wrappers
  import opened Strs

  /** The metadata of plugin.yaml. */
  datatype MetaData = MetaData(name: string, version: string, usage: string, description: string, command: string)

  /** A loaded plugin: its metadata, its directory and the environment
      captured when it was loaded. */
  datatype Plugin = Plugin(metaData: MetaData, dir: string, env: seq<string>)

  /** os.ExpandEnv over the given environment. */
  type Expand = (map<string, string>, string) -> string

  const NoCommand := "prepare plugin command: no command found"

  /** Command.Prepare on the expanded command line: the program is the text
      before the first space and the arguments are the other
      space-separated pieces; an empty program is an error. */
  function Prepare(expanded: string): (r: Outcome<(string, seq<string>)>)
    ensures r.Fail? <==> expanded == "" || expanded[0] == ' '
    ensures r.Fail? ==> r.error == NoCommand
    ensures r.Ok? ==> Join([r.value.0] + r.value.1, " ") == expanded
    ensures r.Ok? ==> r.value.0 != "" && ' ' !in r.value.0 && forall a :: a in r.value.1 ==> ' ' !in a
  {
    var args := Split(expanded, " ");
    SplitFacts(expanded);
    if |args| == 0 || args[0] == "" then Fail(NoCommand)
    else
      var main := args[0];
      var cmdArgs := if |args| > 1 then args[1..] else [];
      assert [main] + cmdArgs == args;
      Ok((main, cmdArgs))
  }

  /** What Prepare relies on about splitting on a space. */
  lemma SplitFacts(s: string)
    ensures Join(Split(s, " "), " ") == s
    ensures forall k :: 0 <= k < |Split(s, " ")| ==> ' ' !in Split(s, " ")[k]
    ensures Split(s, " ")[0] == "" <==> s == "" || s[0] == ' '
  {
    JoinSplit(s, " ");
    SplitPartsFree(s, " ");
    forall k | 0 <= k < |Split(s, " ")| ensures ' ' !in Split(s, " ")[k] {
      ContainsSingle(Split(s, " ")[k], ' ');
    }
    IndexSingle(s, ' ');
    var i := Index(s, " ");
    if i >= 0 {
      assert Split(s, " ")[0] == s[..i];
    }
  }

  /** How running the process ended: normally, with an exit status, or an
      error before any status (the program could not be started). */
  datatype RunResult = Exited | ExitStatus(status: int, text: string) | RunError(text: string)

  /** The process runner: program, arguments and environment. */
  type Run = (string, seq<string>, seq<string>) -> RunResult

  /** Plugin.Exec: CONFTEST_PLUGIN_DIR is set to the plugin directory for
      the expansion of the command; the process gets the plugin's own
      environment. */
  function Exec(p: Plugin, processEnv: map<string, string>, expand: Expand, run: Run, args: seq<string>): Outcome<()> {
    var env := processEnv["CONFTEST_PLUGIN_DIR" := p.dir];
    match Prepare(expand(env, p.metaData.command))
    case Fail(e) => Fail("plugin exec prepare: " + e)
    case Ok((main, cmdArgs)) =>
      match run(main, cmdArgs + args, p.env)
      case Exited => Ok(())
      case ExitStatus(status, text) => if status == 1 then Ok(()) else Fail("plugin exec: " + text)
      case RunError(text) => Fail("plugin exec: " + text)
  }

  /** The process is started with the command's own arguments followed by
      the caller's; it succeeds when the process exits normally or with
      status 1, and any other end is an error. */
  lemma ExecOutcome(p: Plugin, processEnv: map<string, string>, expand: Expand, run: Run, args: seq<string>)
    ensures var expanded := expand(processEnv["CONFTEST_PLUGIN_DIR" := p.dir], p.metaData.command);
      (Prepare(expanded).Fail? ==> Exec(p, processEnv, expand, run, args) == Fail("plugin exec prepare: " + NoCommand))
      && (Prepare(expanded).Ok? ==>
            var res := run(Prepare(expanded).value.0, Prepare(expanded).value.1 + args, p.env);
            (Exec(p, processEnv, expand, run, args).Ok? <==> res.Exited? || (res.ExitStatus? && res.status == 1)))
  {
  }
}
