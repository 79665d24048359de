/** `makePath`: create a directory below the package root one segment at a
    time, checking each accumulated prefix before creating it. */
module PathMaker {
  import opened JsStrings
  import opened Outcomes

  /** A directory below the package root, as its segments. */
  type Path = seq<JsString>

  /** The build output directory `build/Release`, relative to the package root. */
  const BuildDir: Path := [Text("build"), Text("Release")]

  /** The file system as the installer sees it: the directories `fs.access`
      finds readable and writable, and the error `fs.mkdir` reports for each
      directory it cannot create. A successful `mkdir` makes its directory
      accessible. */
  datatype Fs = Fs(accessible: set<Path>, mkdirErrors: map<Path, Fault>)

  /** One prefix handled: `fs.access` on `path`, then `fs.mkdir` when `mkdir`. */
  datatype Visit = Visit(path: Path, mkdir: bool)

  datatype MakeRun = MakeRun(fs: Fs, visits: seq<Visit>, outcome: Outcome)

  /** The first `k` segments of `parts` cannot be made: they are not
      accessible and creating them fails. */
  predicate Blocked(fs: Fs, parts: Path, k: nat)
    requires k <= |parts|
  {
    parts[..k] !in fs.accessible && parts[..k] in fs.mkdirErrors
  }

  /** `_make(n - 1, p, cb)` once the first `n` segments are handled. */
  function MakeFrom(fs: Fs, parts: Path, n: nat): (r: MakeRun)
    requires n <= |parts|
    decreases |parts| - n
    ensures r.fs.mkdirErrors == fs.mkdirErrors
    ensures fs.accessible <= r.fs.accessible
    // prefixes are visited strictly root-first, one visit each
    ensures |r.visits| <= |parts| - n
    ensures forall j | 0 <= j < |r.visits| :: r.visits[j].path == parts[..n + 1 + j]
    // exactly the prefixes that were not accessible are created
    ensures forall j | 0 <= j < |r.visits| :: r.visits[j].mkdir <==> r.visits[j].path !in fs.accessible
    // success exactly when no remaining prefix is blocked, and then every prefix exists
    ensures r.outcome.Pass? <==> forall k | n < k <= |parts| :: !Blocked(fs, parts, k)
    ensures r.outcome.Pass? ==> |r.visits| == |parts| - n
    ensures r.outcome.Pass? ==> forall k | n < k <= |parts| :: parts[..k] in r.fs.accessible
    // failure stops at the first blocked prefix and reports its mkdir error
    ensures r.outcome.Fail? ==>
      var k := n + |r.visits|;
      && |r.visits| >= 1
      && Blocked(fs, parts, k)
      && r.outcome.error == fs.mkdirErrors[parts[..k]]
      && (forall j | n < j < k :: !Blocked(fs, parts, j))
      && parts[..k] !in r.fs.accessible
  {
    if n == |parts| then MakeRun(fs, [], Pass)
    else
      var p := parts[..n + 1];
      if p in fs.accessible then
        var rest := MakeFrom(fs, parts, n + 1);
        MakeRun(rest.fs, [Visit(p, false)] + rest.visits, rest.outcome)
      else if p in fs.mkdirErrors then
        assert Blocked(fs, parts, n + 1);
        MakeRun(fs, [Visit(p, true)], Fail(fs.mkdirErrors[p]))
      else
        var created := fs.(accessible := fs.accessible + {p});
        assert forall k | n + 1 < k <= |parts| :: Blocked(created, parts, k) == Blocked(fs, parts, k) by {
          forall k | n + 1 < k <= |parts| ensures parts[..k] != p {
            assert |parts[..k]| != |p|;
          }
        }
        var rest := MakeFrom(created, parts, n + 1);
        assert forall j | 0 <= j < |rest.visits| :: rest.visits[j].path != p by {
          forall j | 0 <= j < |rest.visits| ensures rest.visits[j].path != p {
            assert |rest.visits[j].path| == n + 2 + j;
          }
        }
        MakeRun(rest.fs, [Visit(p, true)] + rest.visits, rest.outcome)
  }

  /** Nothing else changes: the only directories that appear are the ones
      this run created. */
  lemma {:induction false} MakeFromCreatesOnlyVisited(fs: Fs, parts: Path, n: nat, q: Path)
    requires n <= |parts|
    requires q in MakeFrom(fs, parts, n).fs.accessible && q !in fs.accessible
    ensures exists j | 0 <= j < |MakeFrom(fs, parts, n).visits| ::
      MakeFrom(fs, parts, n).visits[j].path == q && MakeFrom(fs, parts, n).visits[j].mkdir
    decreases |parts| - n
  {
    var r := MakeFrom(fs, parts, n);
    var p := parts[..n + 1];
    if p in fs.accessible {
      var rest := MakeFrom(fs, parts, n + 1);
      MakeFromCreatesOnlyVisited(fs, parts, n + 1, q);
      var j :| 0 <= j < |rest.visits| && rest.visits[j].path == q && rest.visits[j].mkdir;
      assert r.visits[j + 1] == rest.visits[j];
    } else if q == p {
      assert r.visits[0].path == q;
    } else {
      var created := fs.(accessible := fs.accessible + {p});
      var rest := MakeFrom(created, parts, n + 1);
      MakeFromCreatesOnlyVisited(created, parts, n + 1, q);
      var j :| 0 <= j < |rest.visits| && rest.visits[j].path == q && rest.visits[j].mkdir;
      assert r.visits[j + 1] == rest.visits[j];
    }
  }

  /** `makePath(pathToMake, cb)`, with the target given relative to the
      package root. */
  function MakePath(fs: Fs, target: Path): MakeRun
  {
    MakeFrom(fs, target, 0)
  }

  /** A path whose every prefix already exists is made without any `mkdir`
      and leaves the file system as it was. */
  lemma {:induction false} MakePathExisting(fs: Fs, parts: Path, n: nat)
    requires n <= |parts|
    requires forall k | n < k <= |parts| :: parts[..k] in fs.accessible
    ensures MakeFrom(fs, parts, n).outcome == Pass
    ensures MakeFrom(fs, parts, n).fs == fs
    ensures forall j | 0 <= j < |MakeFrom(fs, parts, n).visits| :: !MakeFrom(fs, parts, n).visits[j].mkdir
    decreases |parts| - n
  {
    if n < |parts| {
      MakePathExisting(fs, parts, n + 1);
    }
  }

  /** Making a path a second time after it succeeded creates nothing. */
  lemma MakePathIdempotent(fs: Fs, target: Path)
    requires MakePath(fs, target).outcome.Pass?
    ensures var again := MakePath(MakePath(fs, target).fs, target);
      && again.outcome == Pass
      && again.fs == MakePath(fs, target).fs
      && forall j | 0 <= j < |again.visits| :: !again.visits[j].mkdir
  {
    MakePathExisting(MakePath(fs, target).fs, target, 0);
  }
}
