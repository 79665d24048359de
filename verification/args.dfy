/** `parseArgs`: the command line split into `--flag` options and positional
    arguments. */
module Args {
  import opened JsStrings

  /** `/^--/.test(token)`. */
  predicate IsFlag(t: JsString) {
    |t| >= 2 && t[0] == Dash && t[1] == Dash
  }

  /** The option a flag token sets: `token.substr(2)`. */
  function OptionName(t: JsString): JsString
    requires IsFlag(t)
  {
    t[2..]
  }

  /** The tokens that are not flags, in their original order. */
  function Positionals(argv: seq<JsString>): seq<JsString>
  {
    if argv == [] then []
    else
      var last := argv[|argv| - 1];
      Positionals(argv[..|argv| - 1]) + (if IsFlag(last) then [] else [last])
  }

  /** The flag tokens, in their original order. */
  function Flags(argv: seq<JsString>): seq<JsString>
  {
    if argv == [] then []
    else
      var last := argv[|argv| - 1];
      Flags(argv[..|argv| - 1]) + (if IsFlag(last) then [last] else [])
  }

  /** The options the flags of `argv` switch on. */
  function OptionNames(argv: seq<JsString>): set<JsString>
  {
    if argv == [] then {}
    else
      var last := argv[|argv| - 1];
      OptionNames(argv[..|argv| - 1]) + (if IsFlag(last) then {OptionName(last)} else {})
  }

  /** A positional is a token of the command line that is not a flag, and
      every such token is a positional. */
  lemma {:induction false} PositionalsMembers(argv: seq<JsString>)
    ensures forall t :: t in Positionals(argv) <==> t in argv && !IsFlag(t)
  {
    if argv != [] {
      var init := argv[..|argv| - 1];
      PositionalsMembers(init);
      assert argv == init + [argv[|argv| - 1]];
    }
  }

  /** An option is set exactly when some token is that option's flag. */
  lemma {:induction false} OptionNamesMembers(argv: seq<JsString>)
    ensures forall name :: name in OptionNames(argv) <==>
      exists k | 0 <= k < |argv| :: IsFlag(argv[k]) && OptionName(argv[k]) == name
  {
    if argv != [] {
      var init := argv[..|argv| - 1];
      OptionNamesMembers(init);
      forall name | name in OptionNames(argv)
        ensures exists k | 0 <= k < |argv| :: IsFlag(argv[k]) && OptionName(argv[k]) == name
      {
        if name in OptionNames(init) {
          var k :| 0 <= k < |init| && IsFlag(init[k]) && OptionName(init[k]) == name;
          assert argv[k] == init[k];
        } else {
          assert IsFlag(argv[|argv| - 1]);
        }
      }
      forall name, k | 0 <= k < |argv| && IsFlag(argv[k]) && OptionName(argv[k]) == name
        ensures name in OptionNames(argv)
      {
        if k < |init| {
          assert init[k] == argv[k];
        }
      }
    }
  }

  /** `parseArgs(argv, opts)`: every `--name` token sets option `name` (the
      options are the set of names mapped to `true`), every other token is
      kept, in order. */
  method ParseArgs(argv: seq<JsString>, opts: set<JsString>)
    returns (args: seq<JsString>, opts': set<JsString>)
    ensures args == Positionals(argv)
    ensures opts' == opts + OptionNames(argv)
    ensures forall t :: t in args <==> t in argv && !IsFlag(t)
    ensures forall name :: name in opts' <==>
      name in opts || exists k | 0 <= k < |argv| :: IsFlag(argv[k]) && OptionName(argv[k]) == name
    ensures |args| + |Flags(argv)| == |argv|
  {
    args := [];
    opts' := opts;
    var i := 0;
    while i < |argv|
      invariant 0 <= i <= |argv|
      invariant args == Positionals(argv[..i])
      invariant opts' == opts + OptionNames(argv[..i])
    {
      assert argv[..i + 1][..i] == argv[..i];
      if IsFlag(argv[i]) {
        opts' := opts' + {OptionName(argv[i])};
      } else {
        args := args + [argv[i]];
      }
      i := i + 1;
    }
    assert argv[..i] == argv;
    PositionalsMembers(argv);
    OptionNamesMembers(argv);
    TokensPartition(argv);
  }

  /** Splitting distributes over concatenation, so the positionals keep the
      order they had in the command line. */
  lemma {:induction false} PositionalsAppend(a: seq<JsString>, b: seq<JsString>)
    ensures Positionals(a + b) == Positionals(a) + Positionals(b)
    ensures Flags(a + b) == Flags(a) + Flags(b)
    decreases |b|
  {
    if b == [] {
      assert a + b == a;
    } else {
      var init := b[..|b| - 1];
      PositionalsAppend(a, init);
      assert (a + b)[..|a + b| - 1] == a + init;
    }
  }

  /** The options of a concatenation are those of its parts. */
  lemma {:induction false} OptionNamesAppend(a: seq<JsString>, b: seq<JsString>)
    ensures OptionNames(a + b) == OptionNames(a) + OptionNames(b)
    decreases |b|
  {
    if b == [] {
      assert a + b == a;
    } else {
      var init := b[..|b| - 1];
      OptionNamesAppend(a, init);
      assert (a + b)[..|a + b| - 1] == a + init;
    }
  }

  /** Every token is either a flag or a positional. */
  lemma {:induction false} TokensPartition(argv: seq<JsString>)
    ensures |Positionals(argv)| + |Flags(argv)| == |argv|
  {
    if argv != [] {
      TokensPartition(argv[..|argv| - 1]);
    }
  }

  /** Flags may sit anywhere: inserting one leaves the positionals unchanged
      and adds exactly its own option. */
  lemma FlagsAnywhere(a: seq<JsString>, flag: JsString, b: seq<JsString>)
    requires IsFlag(flag)
    ensures Positionals(a + [flag] + b) == Positionals(a + b)
    ensures OptionNames(a + [flag] + b) == OptionNames(a + b) + {OptionName(flag)}
  {
    PositionalsAppend(a + [flag], b);
    PositionalsAppend(a, [flag]);
    PositionalsAppend(a, b);
    OptionNamesAppend(a + [flag], b);
    OptionNamesAppend(a, [flag]);
    OptionNamesAppend(a, b);
    assert [flag][..0] == [];
  }
}
