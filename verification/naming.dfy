/** The artifact name of the compiled binary: the package name and version,
    sanitised, then the runtime's ABI version, platform and architecture. */
module Naming {
  import opened JsStrings
  import opened Outcomes

  const Underscore: CodeUnit := 95

  /** The error `_getFileName()` throws when a component is missing. */
  const MissingInformation: Fault := Fault(Text("Missing information for naming compiled binary."))

  /** `\w` of a regular expression without the `u` flag: one code unit in
      `[A-Za-z0-9_]`. */
  predicate IsWordUnit(u: CodeUnit) {
    48 <= u <= 57 || 65 <= u <= 90 || 97 <= u <= 122 || u == 95
  }

  predicate IsWord(s: JsString) {
    forall i | 0 <= i < |s| :: IsWordUnit(s[i])
  }

  /** `s.replace(/[^\w]/g, '_')`: every code unit outside `[A-Za-z0-9_]`
      becomes an underscore, every other one stays. */
  function Sanitize(s: JsString): (r: JsString)
    ensures |r| == |s|
    ensures forall i | 0 <= i < |s| :: IsWordUnit(s[i]) ==> r[i] == s[i]
    ensures forall i | 0 <= i < |s| :: !IsWordUnit(s[i]) ==> r[i] == Underscore
  {
    if s == [] then []
    else [if IsWordUnit(s[0]) then s[0] else Underscore] + Sanitize(s[1..])
  }

  lemma SanitizeIsWord(s: JsString)
    ensures IsWord(Sanitize(s))
  {
  }

  lemma SanitizeIdempotent(s: JsString)
    ensures Sanitize(Sanitize(s)) == Sanitize(s)
  {
  }

  /** The strings sanitising leaves alone are exactly the word strings. */
  lemma SanitizeFixedPoints(s: JsString)
    ensures Sanitize(s) == s <==> IsWord(s)
  {
    if Sanitize(s) == s {
      SanitizeIsWord(s);
    }
  }

  /** Without the `u` flag a character outside the Basic Multilingual Plane is
      two code units, and each becomes an underscore. */
  lemma SanitizeAstral(c: char)
    requires c as int >= 0x1_0000
    ensures Sanitize(Utf16([c])) == [Underscore, Underscore]
  {
    assert [c][1..] == [];
    assert Utf16([c]) == EncodeChar(c);
  }

  /** What the runtime and the package manifest say about this build:
      `pkg.name`, `pkg.version`, `process.versions.modules`,
      `process.platform` and `process.arch`. */
  datatype Identity = Identity(
    name: JsString,
    version: JsString,
    abi: JsString,
    platform: JsString,
    arch: JsString)

  /** `_getFileName()`: throws unless all five components are present. */
  function FileName(id: Identity): (r: Result<JsString>)
    ensures r.Err? <==>
      id.name == [] || id.version == [] || id.abi == [] || id.platform == [] || id.arch == []
    ensures r.Err? ==> r.error == MissingInformation
    ensures r.Ok? ==>
      r.value == Join([Sanitize(id.name), Sanitize(id.version), id.abi, id.platform, id.arch], [Dash])
  {
    var name := Sanitize(id.name);
    var version := Sanitize(id.version);
    if id.abi == [] || id.arch == [] || id.platform == [] || name == [] || version == [] then
      Err(MissingInformation)
    else
      JoinFive(name, version, id.abi, id.platform, id.arch, [Dash]);
      Ok(name + [Dash] + version + [Dash] + id.abi + [Dash] + id.platform + [Dash] + id.arch)
  }

  lemma JoinFive(a: JsString, b: JsString, c: JsString, d: JsString, e: JsString, sep: JsString)
    ensures Join([a, b, c, d, e], sep) == a + sep + b + sep + c + sep + d + sep + e
  {
    JoinCons(d, [e], sep);
    assert [d, e] == [d] + [e];
    JoinCons(c, [d, e], sep);
    assert [c, d, e] == [c] + [d, e];
    JoinCons(b, [c, d, e], sep);
    assert [b, c, d, e] == [b] + [c, d, e];
    JoinCons(a, [b, c, d, e], sep);
    assert [a, b, c, d, e] == [a] + [b, c, d, e];
  }

  const NodeSuffix := Text(".node")
  const GzSuffix := Text(".gz")

  function WithSuffix(base: Result<JsString>, suffix: JsString): (r: Result<JsString>)
    ensures r.Ok? <==> base.Ok?
    ensures base.Err? ==> r == base
    ensures r.Ok? ==> r.value == base.value + suffix
  {
    match base
    case Ok(name) => Ok(name + suffix)
    case Err(e) => Err(e)
  }

  /** `getBinFileName()`. */
  function BinFileName(id: Identity): Result<JsString>
  {
    WithSuffix(FileName(id), NodeSuffix)
  }

  /** `getPackageFileName()`. */
  function PackageFileName(id: Identity): Result<JsString>
  {
    WithSuffix(FileName(id), GzSuffix)
  }

  /** The binary and the package are named together or not at all, and their
      names share the artifact name and differ only in the suffix. */
  lemma NamesDifferOnlyInSuffix(id: Identity)
    ensures BinFileName(id).Ok? <==> FileName(id).Ok?
    ensures PackageFileName(id).Ok? <==> FileName(id).Ok?
    ensures BinFileName(id).Err? ==> BinFileName(id) == PackageFileName(id)
    ensures FileName(id).Ok? ==>
      var base := FileName(id).value;
      && BinFileName(id).value == base + NodeSuffix
      && PackageFileName(id).value == base + GzSuffix
      && BinFileName(id).value != PackageFileName(id).value
  {
    if FileName(id).Ok? {
      var base := FileName(id).value;
      assert (base + NodeSuffix)[|base| + 1] != (base + GzSuffix)[|base| + 1];
    }
  }

  /** The artifact name always splits at its first two dashes into the
      sanitised package name and version (they hold no dash); when the runtime
      components hold no dash either, splitting recovers all five. */
  lemma {:induction false} FileNameSplits(id: Identity)
    requires FileName(id).Ok?
    ensures
      var parts := Split(FileName(id).value, Dash);
      |parts| >= 3 && parts[0] == Sanitize(id.name) && parts[1] == Sanitize(id.version)
    ensures Dash !in id.abi && Dash !in id.platform && Dash !in id.arch ==>
      Split(FileName(id).value, Dash) ==
        [Sanitize(id.name), Sanitize(id.version), id.abi, id.platform, id.arch]
  {
    var name := Sanitize(id.name);
    var version := Sanitize(id.version);
    assert Dash !in name && Dash !in version by {
      SanitizeIsWord(id.name);
      SanitizeIsWord(id.version);
    }
    var tail := id.abi + [Dash] + id.platform + [Dash] + id.arch;
    assert FileName(id).value == name + [Dash] + (version + [Dash] + tail);
    SplitAtFirst(name, Dash, version + [Dash] + tail);
    SplitAtFirst(version, Dash, tail);
    if Dash !in id.abi && Dash !in id.platform && Dash !in id.arch {
      var parts := [name, version, id.abi, id.platform, id.arch];
      SplitJoin(parts, Dash);
    }
  }
}
