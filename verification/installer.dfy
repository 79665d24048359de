/** `install`: rebuild from source, and when building or placing the binary
    fails, fall back to downloading a prebuilt one, collecting every error on
    the way. Each outside effect is replaced by the outcome it would have. */
module Installer {
  import opened JsStrings
  import opened Outcomes
  import opened Naming
  import opened PathMaker
  import opened Builder
  import opened Downloader

  /** How every outside step of one install would turn out. */
  datatype Oracle = Oracle(
    configure: GypOutcome,      // node-gyp clean configure
    compile: GypOutcome,        // node-gyp build -j <jobs> <target>
    renameError: Option<Fault>, // fs.rename of the built binary
    response: Response,         // https.get of the prebuilt package
    fs: Fs,                     // fs.access and fs.mkdir while making build/Release
    writeError: Option<Fault>)  // fs.writeFile of the downloaded binary

  /** How the install ended: its callback was called, an exception escaped
      from a callback, or no callback ever came (the download never ended). */
  datatype End = Reported(outcome: Outcome) | Threw(exception: Fault) | Pending

  /** A file written by a successful `fs.writeFile`. */
  datatype Written = Written(path: Path, data: Bytes)

  datatype InstallRun = InstallRun(
    invoked: seq<Argv>,    // node-gyp invocations, in order
    requested: bool,       // whether https.get was issued
    saved: Option<Written>,
    errors: seq<Fault>,    // the accumulator when the callback ran
    end: End)

  /** How the final callback decides: as the code does it, failing once any
      error was recorded, or as intended, failing only when the last step
      failed. */
  datatype Policy = AsWritten | Intended

  const DownloadDisabled := Fault(Text("Downloading is disabled."))
  const InstallFailed := Text("Failed to install module: ")
  const Separator := Text("; ")

  /** `new Error('Failed to install module: ' + errors.join('; '))`. */
  function Combined(errors: seq<Fault>): Fault
  {
    Fault(InstallFailed + Join(DescribeAll(errors), Separator))
  }

  /** `doCallback(err)`: the accumulator after `err` is pushed, and the
      outcome handed to the caller. */
  function DoCallback(policy: Policy, errors: seq<Fault>, err: Option<Fault>): (seq<Fault>, Outcome)
  {
    var all := errors + (match err case Some(e) => [e] case None => []);
    var failed := match policy case AsWritten => |all| > 0 case Intended => err.Some?;
    (all, if failed then Fail(Combined(all)) else Pass)
  }

  function Finish(policy: Policy, invoked: seq<Argv>, requested: bool, saved: Option<Written>,
                  errors: seq<Fault>, err: Option<Fault>): (r: InstallRun)
    ensures r.invoked == invoked && r.requested == requested && r.saved == saved
    ensures r.errors == errors + (if err.Some? then [err.value] else [])
    ensures r.end.Reported?
    ensures r.end.outcome.Fail? ==> r.end.outcome.error == Combined(r.errors)
    ensures policy == AsWritten ==> (r.end.outcome.Pass? <==> r.errors == [])
    ensures policy == Intended ==> (r.end.outcome.Pass? <==> err.None?)
  {
    var (all, outcome) := DoCallback(policy, errors, err);
    InstallRun(invoked, requested, saved, all, Reported(outcome))
  }

  /** `saveDownload(data, doCallback)`: make `build/Release`, then write the
      binary under its canonical name. */
  function Save(policy: Policy, invoked: seq<Argv>, errors: seq<Fault>, binary: JsString,
                data: Bytes, o: Oracle): (r: InstallRun)
    ensures r.invoked == invoked && r.requested && r.end.Reported?
    ensures r.saved.Some? ==> r.saved == Some(Written(BuildDir + [binary], data)) && r.errors == errors
    ensures r.saved.None? ==> |r.errors| == |errors| + 1 && r.errors[..|errors|] == errors
    ensures r.end.outcome.Fail? ==> r.end.outcome.error == Combined(r.errors)
    ensures policy == AsWritten ==> (r.end.outcome.Pass? <==> r.errors == [])
    ensures policy == Intended ==> (r.end.outcome.Pass? <==> r.saved.Some?)
    ensures MakePath(o.fs, BuildDir).outcome.Fail? ==>
      r.saved.None? && r.errors == errors + [MakePath(o.fs, BuildDir).outcome.error]
    ensures MakePath(o.fs, BuildDir).outcome.Pass? && o.writeError.Some? ==>
      r.saved.None? && r.errors == errors + [o.writeError.value]
    ensures MakePath(o.fs, BuildDir).outcome.Pass? && o.writeError.None? ==> r.saved.Some?
  {
    var made := MakePath(o.fs, BuildDir);
    match made.outcome
    case Fail(e) => Finish(policy, invoked, true, None, errors, Some(e))
    case Pass =>
      match o.writeError
      case Some(e) => Finish(policy, invoked, true, None, errors, Some(e))
      case None => Finish(policy, invoked, true, Some(Written(BuildDir + [binary], data)), errors, None)
  }

  /** The callbacks the download of the package makes: none when naming the
      package throws or the request fails. */
  function Fetched(id: Identity, o: Oracle): seq<Result<Bytes>>
  {
    match (FileName(id), o.response)
    case (Ok(base), Responded(status, events)) => Download(DownloadUrl(base + GzSuffix), status, events)
    case _ => []
  }

  /** `doDownload()`. Naming the package throws before the request when the
      identity is incomplete, and a failed request has no listener, so its
      error escapes as well. */
  function DoDownload(policy: Policy, invoked: seq<Argv>, errors: seq<Fault>, noDownload: bool,
                      id: Identity, o: Oracle): (r: InstallRun)
    ensures r.invoked == invoked
    ensures noDownload ==>
      !r.requested && r.saved.None? && r.errors == errors + [DownloadDisabled] && r.end.Reported?
    ensures r.saved.Some? ==>
      && FileName(id).Ok? && r.saved.value.path == BuildDir + [FileName(id).value + NodeSuffix]
      && r.requested && r.errors == errors && r.end.Reported?
    ensures r.errors == errors || (|r.errors| == |errors| + 1 && r.errors[..|errors|] == errors)
    ensures r.end.Reported? && r.end.outcome.Fail? ==> r.end.outcome.error == Combined(r.errors)
    ensures r.end.Reported? ==> (r.errors == errors <==> r.saved.Some?)
    ensures !r.end.Reported? ==> r.errors == errors && r.saved.None?
    ensures policy == AsWritten && r.end.Reported? ==> (r.end.outcome.Pass? <==> r.errors == [])
    ensures policy == Intended && r.end.Reported? ==> (r.end.outcome.Pass? <==> r.saved.Some?)
    ensures !noDownload && FileName(id).Err? ==> r.end == Threw(MissingInformation) && !r.requested
    ensures !noDownload && FileName(id).Ok? && o.response.RequestFailed? ==>
      r.end == Threw(o.response.err) && r.requested
    ensures !noDownload && FileName(id).Ok? && o.response.Responded? && Fetched(id, o) == [] ==>
      r.end == Pending && r.requested
    ensures !noDownload && |Fetched(id, o)| == 1 && Fetched(id, o)[0].Err? ==>
      r.end.Reported? && r.requested && r.errors == errors + [Fetched(id, o)[0].error]
    ensures !noDownload && |Fetched(id, o)| == 1 && Fetched(id, o)[0].Ok? ==>
      && r.end.Reported? && r.requested
      && (MakePath(o.fs, BuildDir).outcome.Fail? ==> r.errors == errors + [MakePath(o.fs, BuildDir).outcome.error])
      && (MakePath(o.fs, BuildDir).outcome.Pass? && o.writeError.Some? ==> r.errors == errors + [o.writeError.value])
      && (MakePath(o.fs, BuildDir).outcome.Pass? && o.writeError.None? ==>
            r.saved == Some(Written(BuildDir + [FileName(id).value + NodeSuffix], Fetched(id, o)[0].value)))
  {
    if noDownload then Finish(policy, invoked, false, None, errors, Some(DownloadDisabled))
    else
      match FileName(id)
      case Err(e) => InstallRun(invoked, false, None, errors, Threw(e))
      case Ok(base) =>
        var url := DownloadUrl(base + GzSuffix);
        match o.response
        case RequestFailed(e) => InstallRun(invoked, true, None, errors, Threw(e))
        case Responded(status, events) =>
          var calls := Download(url, status, events);
          if calls == [] then InstallRun(invoked, true, None, errors, Pending)
          else
            match calls[0]
            case Err(e) => Finish(policy, invoked, true, None, errors, Some(e))
            case Ok(data) => Save(policy, invoked, errors, base + NodeSuffix, data, o)
  }

  /** `install(target, cb)` under a decision policy. */
  function Run(policy: Policy, target: JsString, noDownload: bool, host: Host, id: Identity, o: Oracle): (r: InstallRun)
    ensures r.invoked == Build(target, true, host, o.configure, o.compile).invoked
    ensures Placed(target, host, id, o) ==>
      r.end == Reported(Pass) && !r.requested && r.errors == [] && r.saved.None?
    ensures policy == AsWritten ==> (r.end == Reported(Pass) <==> Placed(target, host, id, o))
    ensures policy == Intended ==> (r.end == Reported(Pass) <==> Placed(target, host, id, o) || r.saved.Some?)
    ensures r.end.Reported? && r.end.outcome.Fail? ==>
      |r.errors| >= 1 && r.end.outcome.error == Combined(r.errors)
  {
    var b := Build(target, true, host, o.configure, o.compile);
    match b.outcome
    case Fail(e) => DoDownload(policy, b.invoked, [e], noDownload, id, o)
    case Pass => AfterBuild(policy, b.invoked, target, noDownload, id, o)
  }

  /** The build callback after a successful build: `moveBuild`, then either
      the final callback or the download fallback. */
  function AfterBuild(policy: Policy, invoked: seq<Argv>, target: JsString, noDownload: bool,
                      id: Identity, o: Oracle): (r: InstallRun)
    ensures FileName(id).Err? ==> r == InstallRun(invoked, false, None, [], Threw(MissingInformation))
    ensures FileName(id).Ok? && o.renameError.None? ==>
      r == InstallRun(invoked, false, None, [], Reported(Pass))
    ensures FileName(id).Ok? && o.renameError.Some? ==>
      r == DoDownload(policy, invoked, [o.renameError.value], noDownload, id, o)
  {
    match MoveBuild(target, id, o.renameError)
    case MoveThrew(e) => InstallRun(invoked, false, None, [], Threw(e))
    case Renamed(_, _, Pass) => Finish(policy, invoked, false, None, [], None)
    case Renamed(_, _, Fail(e)) => DoDownload(policy, invoked, [e], noDownload, id, o)
  }

  /** The build and the rename both worked. */
  predicate Placed(target: JsString, host: Host, id: Identity, o: Oracle) {
    && Build(target, true, host, o.configure, o.compile).outcome.Pass?
    && FileName(id).Ok?
    && o.renameError.None?
  }

  /** `install(target, cb)` as the code is written: it succeeds exactly when
      the freshly built binary was placed, and a failure reports every
      recorded error. */
  function Install(target: JsString, noDownload: bool, host: Host, id: Identity, o: Oracle): (r: InstallRun)
    ensures r.end == Reported(Pass) <==> Placed(target, host, id, o)
    ensures r.end.Reported? && r.end.outcome.Fail? ==>
      |r.errors| >= 1 && r.end.outcome.error == Combined(r.errors)
    ensures r.invoked == Build(target, true, host, o.configure, o.compile).invoked
  {
    Run(AsWritten, target, noDownload, host, id, o)
  }

  /** A placed build ends the install at once: no download, no error. */
  lemma InstallPlacedSkipsDownload(target: JsString, noDownload: bool, host: Host, id: Identity, o: Oracle)
    requires Placed(target, host, id, o)
    ensures var r := Install(target, noDownload, host, id, o);
      !r.requested && r.errors == [] && r.saved.None?
  {
  }

  /** With `--no-download` nothing is fetched or written, and a failure ends
      with the "Downloading is disabled." error after the build or move error. */
  lemma InstallNoDownload(target: JsString, host: Host, id: Identity, o: Oracle)
    ensures var r := Install(target, true, host, id, o);
      && !r.requested && r.saved.None?
      && (r.end.Reported? && r.end.outcome.Fail? ==> |r.errors| == 2 && r.errors[1] == DownloadDisabled)
  {
  }

  /** The accumulator holds the build error, or else the move error, first,
      and at most one later error from the fallback; the install succeeds
      exactly when it is empty. */
  lemma InstallErrorOrder(target: JsString, noDownload: bool, host: Host, id: Identity, o: Oracle)
    ensures var r := Install(target, noDownload, host, id, o);
      var b := Build(target, true, host, o.configure, o.compile);
      && |r.errors| <= 2
      && (r.end.Reported? ==> (r.end.outcome.Pass? <==> r.errors == []))
      && (|r.errors| >= 1 && b.outcome.Fail? ==> r.errors[0] == b.outcome.error)
      && (|r.errors| >= 1 && b.outcome.Pass? ==> o.renameError == Some(r.errors[0]))
  {
  }

  /** The error `install` records before the fallback starts: the build's, or
      else the rename's; none when the binary was placed or naming it threw. */
  function Recorded(target: JsString, host: Host, id: Identity, o: Oracle): seq<Fault>
  {
    var b := Build(target, true, host, o.configure, o.compile);
    if b.outcome.Fail? then [b.outcome.error]
    else if FileName(id).Ok? && o.renameError.Some? then [o.renameError.value]
    else []
  }

  /** Once the fallback has started, the build or move error comes first and
      the one error of the fallback, if any, second: "Downloading is
      disabled.", the download's error, the `mkdir` error or the write
      error, whichever step failed. */
  lemma InstallFallbackError(target: JsString, noDownload: bool, host: Host, id: Identity, o: Oracle)
    ensures Recorded(target, host, id, o) == [] ==> Install(target, noDownload, host, id, o).errors == []
    ensures var first := Recorded(target, host, id, o);
      first != [] && noDownload ==> Install(target, noDownload, host, id, o).errors == first + [DownloadDisabled]
    ensures var first, calls := Recorded(target, host, id, o), Fetched(id, o);
      first != [] && !noDownload && |calls| == 1 && calls[0].Err? ==>
        Install(target, noDownload, host, id, o).errors == first + [calls[0].error]
    ensures var first, calls, made := Recorded(target, host, id, o), Fetched(id, o), MakePath(o.fs, BuildDir).outcome;
      first != [] && !noDownload && |calls| == 1 && calls[0].Ok? && made.Fail? ==>
        Install(target, noDownload, host, id, o).errors == first + [made.error]
    ensures var first, calls, made := Recorded(target, host, id, o), Fetched(id, o), MakePath(o.fs, BuildDir).outcome;
      first != [] && !noDownload && |calls| == 1 && calls[0].Ok? && made.Pass? && o.writeError.Some? ==>
        Install(target, noDownload, host, id, o).errors == first + [o.writeError.value]
    ensures var first, calls, made := Recorded(target, host, id, o), Fetched(id, o), MakePath(o.fs, BuildDir).outcome;
      first != [] && !noDownload && |calls| == 1 && calls[0].Ok? && made.Pass? && o.writeError.None? ==>
        Install(target, noDownload, host, id, o).errors == first
  {
  }

  /** A saved download is the canonical binary, written with the downloaded
      bytes in `build/Release`. */
  lemma InstallSavesCanonical(target: JsString, noDownload: bool, host: Host, id: Identity, o: Oracle)
    ensures var r := Install(target, noDownload, host, id, o);
      r.saved.Some? ==>
        && FileName(id).Ok?
        && r.saved.value.path == BuildDir + [FileName(id).value + NodeSuffix]
        && o.response.Responded?
        && Download(DownloadUrl(FileName(id).value + GzSuffix), o.response.status, o.response.events)
             == [Ok(r.saved.value.data)]
  {
  }

  /** As written, a download that was saved still ends in failure: the build
      or move error recorded before it is never cleared. */
  lemma SavedDownloadStillFails(target: JsString, noDownload: bool, host: Host, id: Identity, o: Oracle)
    ensures var r := Install(target, noDownload, host, id, o);
      r.saved.Some? ==> |r.errors| == 1 && r.end == Reported(Fail(Combined(r.errors)))
  {
  }

  /** The runs that show it: the configure step exits with a non-zero code,
      the download answers 200 with one chunk and ends, `build/Release`
      exists and the write succeeds. The binary is saved, yet the install
      reports failure, while the intended decision accepts the same run. */
  lemma SavedDownloadFailsExample(target: JsString, host: Host, id: Identity, o: Oracle, code: nat, chunk: Bytes)
    requires code != 0 && o.configure == Exited(code)
    requires FileName(id).Ok?
    requires o.response == Responded(200, [Data(chunk), UnzipEnd])
    requires BuildDir[..1] in o.fs.accessible && BuildDir[..2] in o.fs.accessible
    requires o.writeError.None?
    ensures var r := Install(target, false, host, id, o);
      && r.saved == Some(Written(BuildDir + [FileName(id).value + NodeSuffix], chunk))
      && r.end.Reported? && r.end.outcome.Fail?
    ensures var r := InstallIntended(target, false, host, id, o);
      && r.saved == Some(Written(BuildDir + [FileName(id).value + NodeSuffix], chunk))
      && r.end == Reported(Pass)
  {
    var events := [Data(chunk), UnzipEnd];
    var url := DownloadUrl(FileName(id).value + GzSuffix);
    DownloadFirstSignalWins(url, events);
    assert FirstTerminal(events) == 1;
    assert events[..1] == [Data(chunk)];
    assert Chunks(events[..1]) == [chunk];
    assert Flatten([chunk]) == chunk by {
      assert [chunk][..0] == [];
    }
    assert Download(url, 200, events) == [Ok(chunk)];
    MakePathExisting(o.fs, BuildDir, 0);
  }

  /** `install(target, cb)` with the final callback deciding as the comment
      at the head of `install` describes: a download that was saved is a
      success. */
  function InstallIntended(target: JsString, noDownload: bool, host: Host, id: Identity, o: Oracle): (r: InstallRun)
    ensures r.end == Reported(Pass) <==> Placed(target, host, id, o) || r.saved.Some?
    ensures r.end.Reported? && r.end.outcome.Fail? ==>
      |r.errors| >= 1 && r.end.outcome.error == Combined(r.errors)
  {
    Run(Intended, target, noDownload, host, id, o)
  }

  /** Both policies take the same steps and record the same errors; they
      differ only in the verdict. */
  lemma PoliciesAgreeOnSteps(target: JsString, noDownload: bool, host: Host, id: Identity, o: Oracle)
    ensures Agree(Install(target, noDownload, host, id, o), InstallIntended(target, noDownload, host, id, o))
  {
    var b := Build(target, true, host, o.configure, o.compile);
    if b.outcome.Fail? {
      DoDownloadAgrees(b.invoked, [b.outcome.error], noDownload, id, o);
    } else if o.renameError.Some? && FileName(id).Ok? {
      DoDownloadAgrees(b.invoked, [o.renameError.value], noDownload, id, o);
    }
  }

  /** The two runs took the same steps and recorded the same errors, and
      where their verdicts differ the as-written one failed after saving a
      download that the intended one accepts. */
  predicate Agree(a: InstallRun, b: InstallRun) {
    && a.invoked == b.invoked && a.requested == b.requested && a.saved == b.saved
    && a.errors == b.errors
    && (a.end.Reported? <==> b.end.Reported?)
    && (!a.end.Reported? ==> a.end == b.end)
    && (a.end.Reported? && a.end.outcome != b.end.outcome ==>
          a.end.outcome.Fail? && b.end.outcome.Pass? && a.saved.Some?)
  }

  lemma DoDownloadAgrees(invoked: seq<Argv>, errors: seq<Fault>, noDownload: bool, id: Identity, o: Oracle)
    requires |errors| == 1
    ensures Agree(DoDownload(AsWritten, invoked, errors, noDownload, id, o),
                  DoDownload(Intended, invoked, errors, noDownload, id, o))
  {
  }
}
