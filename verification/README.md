# Native-module installer for the New Relic Node.js agent

`lib/pre-build.js` is the install-time script that produces the agent's native
binary. It first tries to compile the module from source with node-gyp
(`clean configure`, then `build -j <jobs> <target>`). If that works, it renames
the result to a canonical name built from the package name and version, the
ABI, the platform and the architecture. If compiling or renaming fails, it
downloads a gzipped prebuilt binary from `https://download.newrelic.com/` and
writes it into `build/Release`. Every error handed to one of its callbacks is
collected, and the final callback reports all of them together, joined with
`"; "`. Errors that are thrown instead escape uncollected (see below), and a
download that never ends leaves the final callback uncalled.

This project is a Dafny model of that script's logic:

- `JsStrings` models JavaScript strings as UTF-16 code units. It also provides
  `Array.prototype.join`, `String.prototype.split` on one code unit, and the
  decimal rendering of a non-negative number.
- `Outcomes` models errors as `String(err)` renders them, and node-style
  callbacks.
- `Naming` models the canonical file name (`_getFileName`, `getBinFileName`,
  `getPackageFileName`).
- `Args` models `parseArgs`.
- `PathMaker` models `makePath`. The file system is an oracle: a set of paths
  that are accessible, and the error `mkdir` gives for each path it would
  refuse.
- `Builder` models `execGyp`, `build` and `moveBuild`. Each child process is
  replaced by how it ends.
- `Downloader` models `download`. The HTTPS response and the gunzip stream are
  replaced by the sequence of events their listeners receive. `hasCalledBack`
  is the flag in the fold's state.
- `Installer` models `install`, `doDownload`, `saveDownload` and `doCallback`.
  It does so twice: once as written, and once with the final decision the
  comment in `install` describes (see Findings).
- `Cli` models `executeCli` and the entry point's use of `parseArgs`.

Some behaviour of the code that a reader might not expect, and that the model
keeps:

- `makePath` does not tolerate an `EEXIST` from `mkdir`. Any `mkdir` error
  ends it.
- The job count `Math.round(cpus / 2)` has no lower bound of 1. It is 0 on a
  host that reports no CPU.
- An incomplete identity makes the naming functions throw: `getBinFileName`
  inside the build callback (in `moveBuild`), or `getPackageFileName` inside
  `doDownload` (in `download`). Both happen after the build. The exception
  escapes and is never pushed onto the error list.
- `https.get` has no `error` listener on the request. A failed request escapes
  as an exception rather than reaching the download callback.
- An unknown command starts nothing and reports nothing.

## Model

| member | source | states |
|---|---|---|
| Naming.Sanitize | lib/pre-build.js:42-43 | `replace(/[^\w]/g, '_')` keeps the length, keeps every ASCII letter, digit and underscore, and turns every other UTF-16 code unit into `_` |
| Naming.SanitizeIsWord | lib/pre-build.js:42-43 | after sanitising, only word characters remain |
| Naming.SanitizeIdempotent | lib/pre-build.js:42-43 | sanitising twice gives the same name as sanitising once |
| Naming.SanitizeFixedPoints | lib/pre-build.js:42-43 | a name is left unchanged if and only if it is made only of word characters |
| Naming.SanitizeAstral | lib/pre-build.js:42-43 | a character outside the Basic Multilingual Plane becomes two underscores, because the pattern has no `u` flag and matches each surrogate on its own |
| Naming.FileName | lib/pre-build.js:37-50 | fails with "Missing information for naming compiled binary." exactly when the ABI, arch or platform is empty or the sanitised name or version is empty; otherwise it is the five parts joined with `-` |
| Naming.NamesDifferOnlyInSuffix | lib/pre-build.js:52-58 | the binary name and the package name fail together; when they succeed they are the same base name with `.node` and `.gz` |
| Naming.FileNameSplits | lib/pre-build.js:49 | splitting the file name at `-` gives back the sanitised name and version first (they contain no `-`); when the ABI, platform and arch contain no `-` either, it gives back all five parts |
| JsStrings.SplitJoin | lib/pre-build.js:49 | splitting at a code unit undoes joining with it, for parts that do not contain it (the inverse used by `FileNameSplits`) |
| JsStrings.DecimalRoundTrip | lib/pre-build.js:116 | the decimal rendering of an exit code, status or job count reads back as the same number |
| Args.ParseArgs | lib/pre-build.js:272-282 | the loop returns the tokens that do not start with `--`, in order, and sets an option for each token that does, named by the text after `--`; a token is returned if and only if it is not a flag; the positionals and the flags together account for every token |
| Args.PositionalsMembers | lib/pre-build.js:274-279 | a token is among the positionals if and only if it occurs on the command line and is not a flag |
| Args.OptionNamesMembers | lib/pre-build.js:275-276 | a name is set as an option if and only if some token is `--` followed by that name |
| Args.PositionalsAppend | lib/pre-build.js:274-280 | the positionals and the flags of a concatenation are those of its parts, concatenated in order |
| Args.TokensPartition | lib/pre-build.js:274-280 | every token is counted either as a positional or as a flag |
| Args.FlagsAnywhere | lib/pre-build.js:272-282 | inserting a flag anywhere leaves the positionals unchanged, and the options become those without it plus the flag's own |
| Args.OptionNamesAppend | lib/pre-build.js:274-276 | the options set by a concatenation of command lines are the union of the options each part sets |
| Cli.FlagsDoNotShiftCommand | lib/pre-build.js:31-33 | a flag anywhere on the command line leaves `argv[2]` and `argv[3]` (the command and the target) as they were, and its option is set |
| Cli.Dispatch | lib/pre-build.js:284-297 | `build` and `rebuild` start a build (a rebuild exactly for `rebuild`), `install` starts an install, `upload` starts an upload, and anything else, or no command, starts nothing |
| Cli.BuildCommand | lib/pre-build.js:285-292 | the build command succeeds exactly when both node-gyp steps exit 0, the name is complete and the rename works; a build error is reported as it is; an incomplete name throws the naming error |
| Builder.Jobs | lib/pre-build.js:135 | the job count is half the CPU count rounded half up: `2j-1 <= cpus < 2j+1` |
| Builder.ExecGyp | lib/pre-build.js:103-121 | a node-gyp run succeeds exactly when it exits with code 0; every failure message starts with "Failed to execute node-gyp " and the arguments joined by spaces; a spawn error is appended as `String(err)`, a non-zero exit as ": code " and the code in decimal, and a signal as ": code null" |
| Builder.Build | lib/pre-build.js:123-138 | the first step is `clean configure` for a rebuild and `configure` otherwise; the second step `build -j <jobs> <target>` (with `/t:` on Windows) runs if and only if the first exits 0; the build succeeds exactly when both exit 0, and a failure is the last step's error |
| Builder.MoveBuild | lib/pre-build.js:140-144 | it throws the naming error exactly when the name is incomplete; otherwise it renames `build/Release/<target>.node` to `build/Release/<file name>.node` and passes on the rename's error |
| PathMaker.MakeFrom | lib/pre-build.js:80-100 | directories are visited root first, one prefix at a time; `mkdir` is tried exactly on a prefix that is not accessible; it succeeds exactly when no prefix is blocked, and then every prefix is accessible; otherwise it stops at the first blocked prefix with that `mkdir`'s error |
| PathMaker.MakeFromCreatesOnlyVisited | lib/pre-build.js:84-98 | the only directories that become accessible are prefixes it visited |
| PathMaker.MakePathExisting | lib/pre-build.js:86-89 | when every prefix is already accessible, nothing is created and it succeeds |
| PathMaker.MakePathIdempotent | lib/pre-build.js:64-101 | making a path a second time after it succeeded creates nothing and succeeds again |
| Downloader.BufferConcat | lib/pre-build.js:182 | `Buffer.concat(buffers, size)` has exactly `size` bytes, and it is the chunks end to end when `size` is their total length |
| Downloader.FeedData | lib/pre-build.js:158-161 | a chunk is appended to the buffers, `size` stays their byte count, and no callback is made |
| Downloader.FeedAll | lib/pre-build.js:158-183 | the listeners keep the state consistent: at most one callback, the flag set exactly when one was made, and `size` equal to the bytes buffered; after the first callback no further one is made |
| Downloader.Download | lib/pre-build.js:146-187 | at most one callback is made; a status other than 200 fails at once with "Failed to download <url>: code <status>" |
| Downloader.FeedAllFirstSignal | lib/pre-build.js:158-183 | starting from no callback, the listeners make exactly the callback the first non-data event calls for, over every chunk buffered before it, or none when no such event comes |
| Downloader.DownloadFirstSignalWins | lib/pre-build.js:158-183 | with status 200 the first response error, gunzip error or end decides the one callback; a successful body is every chunk received before the end, in order, and its length is their total size |
| Installer.Install | lib/pre-build.js:200-246 | the install succeeds exactly when the build works, the name is complete and the rename works; a failure carries "Failed to install module: " and every recorded error joined by "; "; the node-gyp steps are those of a rebuild |
| Installer.Finish | lib/pre-build.js:235-245 | `doCallback(err)` pushes `err` when there is one; as written it fails exactly when the accumulator is non-empty, with the intended decision exactly when `err` is given, and a failure's message is "Failed to install module: " and every recorded error joined by "; " |
| Installer.Save | lib/pre-build.js:189-198 | `saveDownload` writes the data to `build/Release/<binary>` when `build/Release` could be made and the write works, recording no error; otherwise it records the `mkdir` error or else the write error, and saves nothing |
| Installer.DoDownload | lib/pre-build.js:221-233 | with `--no-download` it records "Downloading is disabled." and requests nothing; an incomplete name throws the naming error before the request; a failed request throws its error; no terminal event leaves the install pending; a download error, a `mkdir` error or a write error is appended after the errors already recorded; a saved binary is `build/Release/<file name>.node` holding the downloaded bytes |
| Installer.AfterBuild | lib/pre-build.js:205-213 | after a successful build, an incomplete name throws, a working rename ends with success and no error, and a failed rename starts the fallback with the rename error recorded |
| Installer.Run | lib/pre-build.js:200-246 | under either decision the steps are those of a rebuild, a placed build succeeds without a download, and a failure carries every recorded error; as written it succeeds exactly when placed, with the intended decision exactly when placed or saved |
| Installer.InstallPlacedSkipsDownload | lib/pre-build.js:204-213 | a placed build requests nothing, saves nothing and records no error |
| Installer.InstallNoDownload | lib/pre-build.js:221-224 | with `--no-download` nothing is requested or saved, and a failure records the build or move error followed by "Downloading is disabled." |
| Installer.InstallErrorOrder | lib/pre-build.js:203-245 | at most two errors are recorded, the build error or else the rename error first; the final callback reports success exactly when none were recorded |
| Installer.InstallFallbackError | lib/pre-build.js:204-245 | once the fallback starts, the errors are the build or rename error followed by the fallback's own error: "Downloading is disabled.", the download's error, the `mkdir` error or the write error, whichever step failed; nothing follows it when the binary was saved, and nothing at all is recorded when the build was placed or naming it threw |
| Installer.InstallSavesCanonical | lib/pre-build.js:189-198 | a saved binary is written to `build/Release/<file name>.node` with exactly the bytes the download of `<file name>.gz` delivered |
| Installer.SavedDownloadStillFails | lib/pre-build.js:235-245 | as written, whenever the downloaded binary is saved the install still reports failure with the one earlier error |
| Installer.SavedDownloadFailsExample | lib/pre-build.js:204-245 | for a failed configure step followed by a download of one chunk that is saved, the install as written reports failure while the intended decision reports success |
| Installer.InstallIntended | lib/pre-build.js:200-202 | with the intended decision, the install succeeds exactly when the build was placed or the downloaded binary was saved |
| Installer.PoliciesAgreeOnSteps | lib/pre-build.js:235-245 | both decisions take the same steps and record the same errors; they differ only when the as-written one fails after saving a download |
| Installer.DoDownloadAgrees | lib/pre-build.js:221-233 | from one recorded error, the download fallback takes the same steps under both decisions |

## Left out

- `upload` is not modelled: it streams the binary to S3 through `aws-sdk`, an outside service with no logic of its own here.
- `load` is not modelled: it only `require`s the binary.
- `_endCli` is not modelled. It writes to the console and calls `process.exit`. The model ends at the outcome handed to it.
- The console line `execGyp` prints, and the `quiet` option that chooses the child's stdio, have no effect on any outcome. They are left out.
- `execGyp` registers both an `error` and a `close` listener. A child that fails to spawn and then closes would call back twice. The model takes one ending per child.
- Path arithmetic (`path.resolve`, `path.relative`, `path.join`, `path.sep`) is not modelled. Paths are sequences of segments below the package root, and `build/Release` is the two segments `build` and `Release`.
- The file system, the child processes, the HTTPS request and gunzip are oracles. gunzip is given as the decompressed chunks it emits.
- Events are handled one at a time in the order given. Other interleavings of the asynchronous callbacks are not modelled.
- The module-level `opts` object is passed as an explicit set of option names. Only `no-download` is read.
- `build` passes the job count to `spawn` as a number. The model renders it in decimal, as `spawn` does for its arguments.
- Invoke: a missing target is kept as `None`. The build is given an explicit target, so `undefined` as a target name is not modelled.
- Downloader.BufferConcat: a `totalLength` larger than the chunks is zero-filled. Some older Node versions leave those bytes uninitialised.
- `pkg.version.toString()` and a non-string `pkg.name` are not modelled. The identity's parts are given as strings. `!pkg` can never hold after a successful `require`.

## Findings

| source | as written | input that shows it | evidently intended | confidence | as-written member | corrected member |
|---|---|---|---|---|---|---|
| lib/pre-build.js:240-241 | `doCallback` fails whenever `errors` is non-empty. A build or rename error is pushed before the download fallback starts, so the install reports failure even after the downloaded binary was saved. | configure exits with code 1; the download answers 200 with one chunk and ends; `build/Release` exists; the write succeeds | the comment at lines 201-202 says to download when building fails and to fail only if that also fails, so a saved download should report success | not executed | Installer.SavedDownloadFailsExample | Installer.InstallIntended |
