/** `executeCli`: the command line's first two positionals select what runs. */
module Cli {
  import opened JsStrings
  import opened Outcomes
  import opened Naming
  import opened Args
  import opened Builder
  import opened Installer

  /** What `executeCli(cmd, target)` starts. */
  datatype Command = RunBuild(rebuild: bool) | RunInstall | RunUpload | NoCommand

  const BuildWord := Text("build")
  const RebuildWord := Text("rebuild")
  const InstallWord := Text("install")
  const UploadWord := Text("upload")

  /** The four command words differ from one another. */
  lemma CommandWordsDistinct()
    ensures BuildWord != RebuildWord && BuildWord != InstallWord && BuildWord != UploadWord
    ensures RebuildWord != InstallWord && RebuildWord != UploadWord && InstallWord != UploadWord
  {
    assert RebuildWord[0] != InstallWord[0];
  }

  /** The command selected by `cmd`; an absent or unknown command starts
      nothing. */
  function Dispatch(cmd: Option<JsString>): (c: Command)
    ensures c.RunBuild? <==> cmd == Some(BuildWord) || cmd == Some(RebuildWord)
    ensures c.RunBuild? ==> (c.rebuild <==> cmd == Some(RebuildWord))
    ensures c == RunInstall <==> cmd == Some(InstallWord)
    ensures c == RunUpload <==> cmd == Some(UploadWord)
    ensures c == NoCommand <==>
      !(cmd == Some(BuildWord) || cmd == Some(RebuildWord) || cmd == Some(InstallWord) || cmd == Some(UploadWord))
  {
    CommandWordsDistinct();
    match cmd
    case None => NoCommand
    case Some(word) =>
      if word == BuildWord || word == RebuildWord then RunBuild(word == RebuildWord)
      else if word == InstallWord then RunInstall
      else if word == UploadWord then RunUpload
      else NoCommand
  }

  function Nth(args: seq<JsString>, i: nat): Option<JsString>
  {
    if i < |args| then Some(args[i]) else None
  }

  /** The command line as the entry point reads it: `parseArgs(process.argv,
      opts)`, then `argv[2]` as the command and `argv[3]` as the target. */
  datatype Invocation = Invocation(command: Command, target: Option<JsString>, options: set<JsString>)

  function Invoke(argv: seq<JsString>): Invocation
  {
    var args := Positionals(argv);
    Invocation(Dispatch(Nth(args, 2)), Nth(args, 3), OptionNames(argv))
  }

  /** A flag token anywhere on the command line leaves the command and the
      target as they were, and only adds its option. */
  lemma FlagsDoNotShiftCommand(a: seq<JsString>, flag: JsString, b: seq<JsString>)
    requires IsFlag(flag)
    ensures Invoke(a + [flag] + b).command == Invoke(a + b).command
    ensures Invoke(a + [flag] + b).target == Invoke(a + b).target
    ensures OptionName(flag) in Invoke(a + [flag] + b).options
  {
    FlagsAnywhere(a, flag, b);
    var argv := a + [flag] + b;
    OptionNamesMembers(argv);
    assert argv[|a|] == flag;
  }

  /** `build` / `rebuild`: build, then move the binary into place. The build
      error is reported as it is; naming the binary may throw. */
  function BuildCommand(target: JsString, rebuild: bool, host: Host, id: Identity,
                        configure: GypOutcome, compile: GypOutcome, renameError: Option<Fault>): (r: End)
    ensures r == Reported(Pass) <==>
      Build(target, rebuild, host, configure, compile).outcome.Pass? && FileName(id).Ok? && renameError.None?
    ensures Build(target, rebuild, host, configure, compile).outcome.Fail? ==>
      r == Reported(Build(target, rebuild, host, configure, compile).outcome)
    ensures r.Threw? ==> r.exception == MissingInformation && FileName(id).Err?
    ensures Build(target, rebuild, host, configure, compile).outcome.Pass? && FileName(id).Err? ==>
      r == Threw(MissingInformation)
    ensures Build(target, rebuild, host, configure, compile).outcome.Pass? && FileName(id).Ok? && renameError.Some? ==>
      r == Reported(Fail(renameError.value))
  {
    var b := Build(target, rebuild, host, configure, compile);
    match b.outcome
    case Fail(e) => Reported(Fail(e))
    case Pass =>
      match MoveBuild(target, id, renameError)
      case MoveThrew(e) => Threw(e)
      case Renamed(_, _, outcome) => Reported(outcome)
  }
}
