/** `build` and `moveBuild`: the node-gyp invocations that compile the module,
    and the rename that gives the compiled binary its canonical name. */
module Builder {
  import opened JsStrings
  import opened Outcomes
  import opened Naming
  import opened PathMaker

  /** The host facts the builder reads once at start-up: `os.cpus().length`
      and whether `process.platform` is `win32`. */
  datatype Host = Host(cpuCount: nat, isWindows: bool)

  /** The arguments of one node-gyp invocation. */
  type Argv = seq<JsString>

  /** How a node-gyp child process ended: `close` with an exit code, `close`
      with a null code (killed by a signal), or an `error` from spawning. */
  datatype GypOutcome = Exited(code: nat) | Killed | SpawnFailed(err: Fault)

  const ExecFailed := Text("Failed to execute node-gyp ")
  const Space := Text(" ")
  const Null := Text("null")
  const WindowsTarget := Text("/t:")

  const Clean := Text("clean")
  const Configure := Text("configure")
  const BuildVerb := Text("build")
  const JobsFlag := Text("-j")

  /** `Math.round(cpuCount / 2)`: the number of parallel jobs, half the CPUs
      rounded half up. It is 0 on a host that reports no CPU. */
  function Jobs(cpuCount: nat): (r: nat)
    ensures 2 * r - 1 <= cpuCount < 2 * r + 1
  {
    (cpuCount + 1) / 2
  }

  /** The first invocation: `clean configure` for a rebuild, else `configure`. */
  function ConfigureArgs(rebuild: bool): Argv
  {
    if rebuild then [Clean, Configure] else [Configure]
  }

  /** The second invocation: `build -j <jobs> <target>`, the target written
      `/t:<target>` on Windows. */
  function CompileArgs(target: JsString, host: Host): Argv
  {
    [BuildVerb, JobsFlag, Decimal(Jobs(host.cpuCount)),
     if host.isWindows then WindowsTarget + target else target]
  }

  /** `execGyp(args, cb)` once the child has ended: success exactly on exit
      code 0; otherwise an error naming the arguments and the code or the
      spawn error. */
  function ExecGyp(args: Argv, o: GypOutcome): (r: Outcome)
    ensures r.Pass? <==> o == Exited(0)
    ensures r.Fail? ==> ExecFailed + Join(args, Space) + ColonSpace <= r.error.message
    ensures o.SpawnFailed? ==>
      r.error.message == ExecFailed + Join(args, Space) + ColonSpace + Describe(o.err)
    ensures o.Killed? ==> r.error.message == ExecFailed + Join(args, Space) + ColonCode + Null
    ensures o.Exited? && o.code != 0 ==>
      r.error.message == ExecFailed + Join(args, Space) + ColonCode + Decimal(o.code)
  {
    var head := ExecFailed + Join(args, Space);
    match o
    case SpawnFailed(err) => Fail(Fault(head + ColonSpace + Describe(err)))
    case Killed =>
      Fail(Fault(head + ColonCode + Null))
    case Exited(code) =>
      if code == 0 then Pass
      else
          Fail(Fault(head + ColonCode + Decimal(code)))
  }

  /** The node-gyp invocations a build issued, in order, and how it ended. */
  datatype BuildRun = BuildRun(invoked: seq<Argv>, outcome: Outcome)

  /** `build(target, rebuild, cb)`, given how each of its two node-gyp runs
      would end: the compile step runs only after a successful configure step,
      and the first failure ends the build with that step's error. */
  function Build(target: JsString, rebuild: bool, host: Host, configure: GypOutcome, compile: GypOutcome): (r: BuildRun)
    ensures 1 <= |r.invoked| <= 2
    ensures r.invoked[0] == (if rebuild then [Clean, Configure] else [Configure])
    ensures |r.invoked| == 2 <==> configure == Exited(0)
    ensures |r.invoked| == 2 ==>
      r.invoked[1] == [BuildVerb, JobsFlag, Decimal(Jobs(host.cpuCount)),
                       if host.isWindows then WindowsTarget + target else target]
    ensures r.outcome.Pass? <==> configure == Exited(0) && compile == Exited(0)
    ensures r.outcome.Fail? ==>
      r.outcome == ExecGyp(r.invoked[|r.invoked| - 1], if |r.invoked| == 1 then configure else compile)
  {
    var first := ConfigureArgs(rebuild);
    match ExecGyp(first, configure)
    case Fail(e) => BuildRun([first], Fail(e))
    case Pass =>
      var second := CompileArgs(target, host);
      BuildRun([first, second], ExecGyp(second, compile))
  }

  /** The rename a `moveBuild` issued, or the exception it threw first. */
  datatype MoveRun = Renamed(from: Path, to: Path, outcome: Outcome) | MoveThrew(exception: Fault)

  /** `moveBuild(target, cb)`: rename `build/Release/<target>.node` to the
      canonical binary name in the same directory. Naming the binary throws
      before any rename when the identity is incomplete; otherwise the rename
      error, if any, is passed on unchanged. */
  function MoveBuild(target: JsString, id: Identity, renameError: Option<Fault>): (r: MoveRun)
    ensures r.MoveThrew? <==> FileName(id).Err?
    ensures r.MoveThrew? ==> r.exception == MissingInformation
    ensures r.Renamed? ==>
      && r.from == BuildDir + [target + NodeSuffix]
      && r.to == BuildDir + [FileName(id).value + NodeSuffix]
      && (r.outcome.Pass? <==> renameError.None?)
      && (r.outcome.Fail? ==> r.outcome.error == renameError.value)
  {
    match BinFileName(id)
    case Err(e) => MoveThrew(e)
    case Ok(name) =>
      Renamed(BuildDir + [target + NodeSuffix], BuildDir + [name],
              match renameError case None => Pass case Some(e) => Fail(e))
  }
}
