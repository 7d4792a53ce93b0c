/** The build orchestrator: from a working directory and a spec file name it
    derives a service name and an `openapi-generator` command line, and runs
    one server build and one client build per spec file. The generator process
    and the filesystem are outside the model: whether the working directory
    exists, which entries its `yamls` directory lists, and whether starting the
    generator with a given argument list raises are all inputs. */
module CodegenTools {

  import opened Text

  datatype Result<T, E> = Success(value: T) | Failure(error: E)

  /** Why the orchestrator cannot be constructed. */
  datatype InitError = DirectoryNotFound(directory: Str)

  /** Why one build stops: the build kind is not `server` or `client` after
      lower-casing, or starting the generator with this argument list raised. */
  datatype BuildError =
    | InvalidBuildKind(buildType: Str)
    | SpawnFailed(argv: seq<Str>)

  /** One call of the single-spec build: the kind as passed and the spec name. */
  datatype BuildRequest = BuildRequest(kind: Str, yaml: Str)

  // ---------------------------------------------------------------------------
  // Service names
  // ---------------------------------------------------------------------------

  /** `path.split('/')[-1]`: the longest suffix of the path without a `/`. */
  function FinalSegment(path: Str): (seg: Str)
    ensures |seg| <= |path| && seg == path[|path| - |seg|..] && '/' !in seg
    ensures |seg| < |path| ==> path[|path| - |seg| - 1] == '/'
  {
    SplitLast(path, '/');
    var parts := Split(path, '/');
    parts[|parts| - 1]
  }

  /** The service name of a spec file: its final path segment cut before the
      FIRST `.` of that segment, so `a/b/petstore.v2.yaml` names `petstore`. */
  function NameFromYaml(yaml: Str): (name: Str)
    ensures '/' !in name && '.' !in name
    ensures |name| <= |FinalSegment(yaml)| && name == FinalSegment(yaml)[..|name|]
    ensures |name| < |FinalSegment(yaml)| ==> FinalSegment(yaml)[|name|] == '.'
  {
    var seg := FinalSegment(yaml);
    SplitFirst(seg, '.');
    Split(seg, '.')[0]
  }

  /** The contract of FinalSegment pins it down: any `/`-free suffix that starts
      the path or follows a `/` is the final segment. */
  lemma FinalSegmentUnique(path: Str, start: nat)
    requires start <= |path| && '/' !in path[start..]
    requires start == 0 || path[start - 1] == '/'
    ensures FinalSegment(path) == path[start..]
  {
    var seg := FinalSegment(path);
    var k := |path| - |seg|;
    assert forall j :: k <= j < |path| ==> path[j] == seg[j - k];
    assert forall j :: start <= j < |path| ==> path[j] == path[start..][j - start];
    assert k == start;
  }

  /** The contract of NameFromYaml pins it down: any `.`-free prefix of the final
      segment that ends it or is followed by a `.` is the service name. */
  lemma NameFromYamlUnique(yaml: Str, len: nat)
    requires len <= |FinalSegment(yaml)| && '.' !in FinalSegment(yaml)[..len]
    requires len == |FinalSegment(yaml)| || FinalSegment(yaml)[len] == '.'
    ensures NameFromYaml(yaml) == FinalSegment(yaml)[..len]
  {
    var seg, name := FinalSegment(yaml), NameFromYaml(yaml);
    assert forall j :: 0 <= j < |name| ==> seg[j] == name[j];
    assert forall j :: 0 <= j < len ==> seg[j] == seg[..len][j];
    assert |name| == len;
  }

  /** A service name is its own service name. */
  lemma NameFromYamlIdempotent(yaml: Str)
    ensures NameFromYaml(NameFromYaml(yaml)) == NameFromYaml(yaml)
  {
    var name := NameFromYaml(yaml);
    FinalSegmentUnique(name, 0);
    NameFromYamlUnique(name, |name|);
  }

  /** A spec path made of a directory part ending in `/` (or nothing), a stem
      without `/` or `.`, and a tail without `/` that is empty or starts with
      `.`, names the service after its stem. */
  lemma NameFromYamlParts(dir: Str, stem: Str, tail: Str)
    requires dir == [] || dir[|dir| - 1] == '/'
    requires '/' !in stem && '.' !in stem
    requires '/' !in tail && (tail == [] || tail[0] == '.')
    ensures NameFromYaml(dir + stem + tail) == stem
  {
    var yaml := dir + stem + tail;
    assert yaml[|dir|..] == stem + tail;
    assert '/' !in stem + tail;
    FinalSegmentUnique(yaml, |dir|);
    assert (stem + tail)[..|stem|] == stem;
    NameFromYamlUnique(yaml, |stem|);
  }

  /** A service name holds only characters of the spec name. */
  lemma NameFromYamlNoSpace(yaml: Str)
    requires NoSpace(yaml)
    ensures NoSpace(NameFromYaml(yaml))
  {
    var seg := FinalSegment(yaml);
    assert forall c :: c in seg ==> c in yaml;
    assert forall c :: c in NameFromYaml(yaml) ==> c in seg;
  }

  /** A listing entry whose name starts with a dot, such as `.gitkeep`, has an
      empty service name. */
  lemma DotFileHasEmptyName()
    ensures NameFromYaml(".gitkeep") == []
  {
    NameFromYamlParts([], [], ".gitkeep");
    assert [] + [] + ".gitkeep" == ".gitkeep";
  }

  /** The tool name and the flags of the command hold no whitespace. */
  lemma FlagsNoSpace()
    ensures NoSpace("openapi-generator") && NoSpace("generate")
    ensures NoSpace("--input-spec") && NoSpace("--generator-name")
    ensures NoSpace("--package-name") && NoSpace("--output")
  {
  }

  /** The fixed pieces of the flag values hold no whitespace. */
  lemma ValuePiecesNoSpace()
    ensures NoSpace("python") && NoSpace("python-flask")
    ensures NoSpace("server") && NoSpace("client")
    ensures NoSpace("/") && NoSpace("-") && NoSpace("/yamls") && NoSpace("/apis")
  {
  }

  /** A bare file keeps the text before its first dot. */
  lemma NameFromYamlBareFile()
    ensures NameFromYaml("petstore.yaml") == "petstore"
  {
    NameFromYamlParts("", "petstore", ".yaml");
    assert "" + "petstore" + ".yaml" == "petstore.yaml";
  }

  /** The directory part is dropped and the final segment is cut at its FIRST
      dot: `a/b/petstore.v2.yaml` names `petstore`, not `v2`. */
  lemma NameFromYamlNestedFile()
    ensures NameFromYaml("a/b/petstore.v2.yaml") == "petstore"
  {
    NameFromYamlParts("a/b/", "petstore", ".v2.yaml");
    assert "a/b/" + "petstore" == "a/b/petstore";
    assert "a/b/petstore" + ".v2.yaml" == "a/b/petstore.v2.yaml";
  }

  // ---------------------------------------------------------------------------
  // Option strings
  // ---------------------------------------------------------------------------

  /** One `key value` item per option, in the order the options were inserted. */
  function OptionItems(options: seq<(Str, Str)>): (items: seq<Str>)
  {
    seq(|options|, i requires 0 <= i < |options| => options[i].0 + " " + options[i].1)
  }

  /** The options rendered as `key value` items joined by single spaces, which
      is every key and value, in insertion order, joined by single spaces. An
      ordered dictionary is modelled as its insertion-ordered entries. */
  function OptionsString(options: seq<(Str, Str)>): (rendered: Str)
    ensures rendered == Join(KeysAndValues(options), " ")
  {
    ItemsAreWords(options);
    Join(OptionItems(options), " ")
  }

  /** Rendering peels off the first option as `key value` and a space. */
  lemma OptionsStringCons(options: seq<(Str, Str)>)
    requires |options| >= 2
    ensures OptionsString(options) ==
      options[0].0 + " " + options[0].1 + " " + OptionsString(options[1..])
  {
    assert OptionItems(options)[1..] == OptionItems(options[1..]);
  }

  /** Every key and value, in insertion order: `k1 v1 k2 v2 ...`. */
  function KeysAndValues(options: seq<(Str, Str)>): (words: seq<Str>)
  {
    if options == [] then [] else [options[0].0, options[0].1] + KeysAndValues(options[1..])
  }

  /** No options render as the empty string; inserting one more option under
      a new key adds a single space and its `key value` item at the end. */
  lemma OptionsStringInsertionOrder(options: seq<(Str, Str)>, key: Str, value: Str)
    ensures OptionsString([]) == []
    ensures OptionsString(options + [(key, value)]) ==
      if options == [] then key + " " + value
      else OptionsString(options) + " " + key + " " + value
  {
    var items := OptionItems(options);
    assert OptionItems(options + [(key, value)]) == items + [key + " " + value];
    if options != [] {
      JoinSnoc(items, key + " " + value, " ");
    } else {
      assert items + [key + " " + value] == [key + " " + value];
    }
  }

  /** Joining the `key value` items is joining the keys and values. */
  lemma {:induction false} ItemsAreWords(options: seq<(Str, Str)>)
    ensures Join(OptionItems(options), " ") == Join(KeysAndValues(options), " ")
    decreases |options|
  {
    if options != [] {
      var k, v := options[0].0, options[0].1;
      var rest := options[1..];
      assert OptionItems(options)[1..] == OptionItems(rest);
      if rest == [] {
        assert KeysAndValues(options) == [k, v];
        assert [k, v][1..] == [v];
      } else {
        ItemsAreWords(rest);
        var words := KeysAndValues(rest);
        assert words != [];
        assert KeysAndValues(options) == [k, v] + words;
        assert ([k, v] + words)[1..] == [v] + words;
        assert ([v] + words)[1..] == words;
      }
    }
  }

  /** The command line is the tool name, `generate` and the keys and values,
      all joined by single spaces. */
  lemma CommandIsJoin(options: seq<(Str, Str)>)
    requires options != []
    ensures "openapi-generator generate " + OptionsString(options) ==
      Join(["openapi-generator", "generate"] + KeysAndValues(options), " ")
  {
    var kv := KeysAndValues(options);
    assert kv != [];
    var words := ["openapi-generator", "generate"] + kv;
    assert words[1..] == ["generate"] + kv;
    assert words[1..][1..] == kv;
    assert "openapi-generator" + " " + "generate" + " " == "openapi-generator generate ";
  }

  /** Splitting the rendered options on whitespace yields every key and value
      in insertion order, provided none of them contains whitespace (an empty
      value leaves no token). */
  lemma OptionsStringTokens(options: seq<(Str, Str)>)
    requires forall i :: 0 <= i < |options| ==> NoSpace(options[i].0) && NoSpace(options[i].1)
    ensures Tokens(OptionsString(options)) == NonEmpty(KeysAndValues(options))
  {
    KeysAndValuesNoSpace(options);
    TokensOfJoin(KeysAndValues(options));
  }

  lemma {:induction false} KeysAndValuesNoSpace(options: seq<(Str, Str)>)
    requires forall i :: 0 <= i < |options| ==> NoSpace(options[i].0) && NoSpace(options[i].1)
    ensures forall i :: 0 <= i < |KeysAndValues(options)| ==> NoSpace(KeysAndValues(options)[i])
    decreases |options|
  {
    if options != [] {
      KeysAndValuesNoSpace(options[1..]);
    }
  }

  // ---------------------------------------------------------------------------
  // Build kinds
  // ---------------------------------------------------------------------------

  /** The build kinds the orchestrator accepts, after lower-casing. */
  predicate IsBuildKind(kind: Str)
  {
    kind == "server" || kind == "client"
  }

  /** The fixed table from build kind to generator name. */
  function CommandMap(): (m: map<Str, Str>)
  {
    map["client" := "python", "server" := "python-flask"]
  }

  /** Lower-casing accepts `server` and `client` in any ASCII letter case and
      nothing else: `SERVER` and `Server` are `server`, `invalid` is rejected. */
  lemma BuildKindExamples()
    ensures Lower("SERVER") == "server" && Lower("Server") == "server"
    ensures Lower("server") == "server" && Lower("client") == "client"
    ensures IsBuildKind(Lower("SERVER")) && IsBuildKind(Lower("Client"))
    ensures !IsBuildKind(Lower("invalid"))
  {
    assert Lower("SERVER") == "server";
    assert Lower("Server") == "server";
    assert Lower("Client") == "client";
    LowerOfLower("server");
    LowerOfLower("client");
    LowerOfLower("invalid");
  }

  // ---------------------------------------------------------------------------
  // Build plan of a batch
  // ---------------------------------------------------------------------------

  /** The builds a batch asks for: a server build, then a client build, for
      each listed entry in listing order. */
  function BuildPlan(listing: seq<Str>): (plan: seq<BuildRequest>)
    ensures |plan| == 2 * |listing|
  {
    if listing == [] then []
    else
      var y := listing[|listing| - 1];
      BuildPlan(listing[..|listing| - 1]) + [BuildRequest("server", y), BuildRequest("client", y)]
  }

  /** A listing of n entries plans exactly 2n builds: entry i is built as a
      server at position 2i and as a client at position 2i+1. */
  lemma {:induction false} BuildPlanShape(listing: seq<Str>)
    ensures |BuildPlan(listing)| == 2 * |listing|
    ensures forall i :: 0 <= i < |listing| ==>
      BuildPlan(listing)[2 * i] == BuildRequest("server", listing[i]) &&
      BuildPlan(listing)[2 * i + 1] == BuildRequest("client", listing[i])
    decreases |listing|
  {
    if listing != [] {
      var init := listing[..|listing| - 1];
      BuildPlanShape(init);
      forall i | 0 <= i < |init| ensures init[i] == listing[i] { }
    }
  }

  /** The plan of a listing is the plan of its first `n` entries, the two
      builds of entry `n`, and the builds that follow. */
  function PlanAfter(listing: seq<Str>, n: nat): (later: seq<BuildRequest>)
    requires n < |listing|
    ensures BuildPlan(listing) == BuildPlan(listing[..n]) +
      ([BuildRequest("server", listing[n]), BuildRequest("client", listing[n])] + later)
  {
    BuildPlanPrefix(listing, n + 1);
    BuildPlanShape(listing[..n + 1]);
    assert listing[..n + 1][..n] == listing[..n];
    var plan := BuildPlan(listing);
    assert plan == plan[..2 * n + 2] + plan[2 * n + 2..];
    plan[2 * n + 2..]
  }

  /** The plan of a longer listing extends the plan of any of its prefixes. */
  lemma {:induction false} BuildPlanPrefix(listing: seq<Str>, n: nat)
    requires n <= |listing|
    ensures BuildPlan(listing[..n]) <= BuildPlan(listing)
    decreases |listing| - n
  {
    if n < |listing| {
      BuildPlanPrefix(listing, n + 1);
      assert listing[..n + 1][..n] == listing[..n];
    } else {
      assert listing[..n] == listing;
    }
  }

  /** Runs planned builds in order and stops at the first one that fails:
      the builds that were started, and how the run ended. `results` gives
      the result each build would have. */
  function RunPlan(plan: seq<BuildRequest>, results: BuildRequest -> Result<Str, BuildError>)
    : (run: (seq<BuildRequest>, Result<(), BuildError>))
    ensures run.0 <= plan && (run.1.Success? ==> run.0 == plan)
    decreases |plan|
  {
    if plan == [] then ([], Success(()))
    else
      match results(plan[0])
      case Failure(e) => ([plan[0]], Failure(e))
      case Success(_) =>
        var rest := RunPlan(plan[1..], results);
        ([plan[0]] + rest.0, rest.1)
  }

  /** A run starts a prefix of the plan; every started build but the last
      went through; a run that ends well started the whole plan and every
      build of it went through, and a run that fails stopped right after the
      build whose error it reports. */
  lemma {:induction false} RunPlanStopsAtFirstFailure(plan: seq<BuildRequest>, results: BuildRequest -> Result<Str, BuildError>)
    ensures var (attempted, outcome) := RunPlan(plan, results);
      attempted <= plan &&
      (forall k :: 0 <= k < |attempted| - 1 ==> results(attempted[k]).Success?) &&
      (outcome.Success? ==> attempted == plan) &&
      (outcome.Success? ==> forall k :: 0 <= k < |plan| ==> results(plan[k]).Success?) &&
      (outcome.Failure? ==> attempted != [] && results(attempted[|attempted| - 1]) == Failure(outcome.error))
    decreases |plan|
  {
    if plan != [] {
      RunPlanStopsAtFirstFailure(plan[1..], results);
      var (attempted, outcome) := RunPlan(plan, results);
      var rest := RunPlan(plan[1..], results).0;
      if results(plan[0]).Success? {
        assert attempted == [plan[0]] + rest;
        assert plan == [plan[0]] + plan[1..];
        forall k | 1 <= k < |attempted| ensures attempted[k] == rest[k - 1] { }
      }
    }
  }

  /** One step of a batch: after a clean run of `done`, the two builds of
      `pair` decide whether the run stops at the first, stops at the second,
      or goes on. */
  lemma RunPlanPair(done: seq<BuildRequest>, pair: seq<BuildRequest>, later: seq<BuildRequest>,
                    results: BuildRequest -> Result<Str, BuildError>)
    requires |pair| == 2 && RunPlan(done, results) == (done, Success(()))
    ensures results(pair[0]).Failure? ==>
      RunPlan(done + (pair + later), results) == (done + [pair[0]], Failure(results(pair[0]).error))
    ensures results(pair[0]).Success? && results(pair[1]).Failure? ==>
      RunPlan(done + (pair + later), results) == (done + pair, Failure(results(pair[1]).error))
    ensures results(pair[0]).Success? && results(pair[1]).Success? ==>
      RunPlan(done + pair, results) == (done + pair, Success(()))
  {
    RunPlanAppend(done, pair + later, results);
    RunPlanAppend(done, pair, results);
    var second := [pair[1]] + later;
    assert (pair + later)[0] == pair[0] && (pair + later)[1..] == second;
    assert second[0] == pair[1];
    if results(pair[0]).Success? {
      if results(pair[1]).Failure? {
        assert RunPlan(second, results) == ([pair[1]], Failure(results(pair[1]).error));
        assert [pair[0]] + [pair[1]] == pair;
      } else {
        var last := [pair[1]];
        assert last[0] == pair[1] && last[1..] == [];
        assert RunPlan([], results) == ([], Success(()));
        assert last + [] == last;
        assert RunPlan(last, results) == (last, Success(()));
        assert pair[1..] == [pair[1]];
        assert [pair[0]] + [pair[1]] == pair;
      }
    }
  }

  /** The plan of one entry more adds that entry's server and client builds. */
  lemma BuildPlanStep(listing: seq<Str>, i: nat)
    requires i < |listing|
    ensures BuildPlan(listing[..i + 1]) ==
      BuildPlan(listing[..i]) + [BuildRequest("server", listing[i]), BuildRequest("client", listing[i])]
  {
    var next := listing[..i + 1];
    assert next[..|next| - 1] == listing[..i];
  }

  /** One entry of a batch, after a clean run of the entries before it: a
      failed server build ends the batch, a failed client build ends it after
      the server build, and otherwise the batch has cleanly run one entry more. */
  lemma {:induction false} RunPlanEntry(listing: seq<Str>, i: nat, results: BuildRequest -> Result<Str, BuildError>)
    requires i < |listing|
    requires RunPlan(BuildPlan(listing[..i]), results) == (BuildPlan(listing[..i]), Success(()))
    ensures var done := BuildPlan(listing[..i]);
      var server, client := BuildRequest("server", listing[i]), BuildRequest("client", listing[i]);
      (results(server).Failure? ==>
        RunPlan(BuildPlan(listing), results) == (done + [server], Failure(results(server).error))) &&
      (results(server).Success? && results(client).Failure? ==>
        RunPlan(BuildPlan(listing), results) == (done + [server, client], Failure(results(client).error))) &&
      (results(server).Success? && results(client).Success? ==>
        RunPlan(done + [server, client], results) == (done + [server, client], Success(())))
  {
    var done := BuildPlan(listing[..i]);
    var pair := [BuildRequest("server", listing[i]), BuildRequest("client", listing[i])];
    var later := PlanAfter(listing, i);
    RunPlanPair(done, pair, later, results);
  }

  /** Running two plans back to back: the second one runs only if the first
      ended well. */
  lemma {:induction false} RunPlanAppend(first: seq<BuildRequest>, second: seq<BuildRequest>, results: BuildRequest -> Result<Str, BuildError>)
    ensures var run := RunPlan(first, results);
      RunPlan(first + second, results) ==
        if run.1.Success? then (run.0 + RunPlan(second, results).0, RunPlan(second, results).1)
        else run
    decreases |first|
  {
    if first == [] {
      assert first + second == second;
      assert [] + RunPlan(second, results).0 == RunPlan(second, results).0;
    } else {
      assert (first + second)[0] == first[0];
      assert (first + second)[1..] == first[1..] + second;
      RunPlanAppend(first[1..], second, results);
      if results(first[0]).Success? {
        var tail, run := RunPlan(first[1..], results), RunPlan(second, results);
        if tail.1.Success? {
          assert [first[0]] + (tail.0 + run.0) == ([first[0]] + tail.0) + run.0;
        }
      }
    }
  }

  // ---------------------------------------------------------------------------
  // The orchestrator
  // ---------------------------------------------------------------------------

  /** The orchestrator. Its fields are set once, by the constructor, and are
      constants afterwards. */
  class Generator {
    const directory: Str
    const inputDir: Str
    const outputDir: Str
    const commandMap: map<Str, Str>

    /** The fields derived from the working directory. */
    ghost predicate Valid()
    {
      inputDir == directory + "/yamls" &&
      outputDir == directory + "/apis" &&
      commandMap == CommandMap()
    }

    /** Field derivation, once the directory is known to exist. The existence
        check itself is modelled only by `NewGenerator`, which is the one
        construction path that models `__init__` as a whole. */
    constructor (directory: Str)
      ensures Valid() && this.directory == directory
    {
      this.directory := directory;
      inputDir := directory + "/yamls";
      outputDir := directory + "/apis";
      commandMap := CommandMap();
    }

    /** The options of one build, as an insertion-ordered dictionary: input
        spec, generator name, package name and output folder, four distinct
        keys. */
    function Options(kind: Str, yaml: Str): (options: seq<(Str, Str)>)
      requires kind in commandMap
      ensures |options| == 4
      ensures forall i, j :: 0 <= i < j < |options| ==> options[i].0 != options[j].0
    {
      var name := NameFromYaml(yaml);
      [("--input-spec", inputDir + "/" + yaml),
       ("--generator-name", commandMap[kind]),
       ("--package-name", name),
       ("--output", outputDir + "/" + name + "-" + kind)]
    }

    /** The fixed-order command words: the tool, its `generate` verb, then the
        flags input spec, generator name, package name and output folder, each
        followed by its value; that is, the tool, the verb and the keys and
        values of the options in insertion order. */
    function CommandWords(kind: Str, yaml: Str): (words: seq<Str>)
      requires kind in commandMap
      ensures words == ["openapi-generator", "generate"] + KeysAndValues(Options(kind, yaml))
    {
      var options := Options(kind, yaml);
      assert KeysAndValues(options[3..]) == [options[3].0, options[3].1] by {
        assert options[3..][1..] == [];
      }
      assert options[2..][1..] == options[3..] && options[1..][1..] == options[2..];
      assert KeysAndValues(options[2..]) == [options[2].0, options[2].1] + KeysAndValues(options[3..]);
      assert KeysAndValues(options[1..]) == [options[1].0, options[1].1] + KeysAndValues(options[2..]);
      var name := NameFromYaml(yaml);
      ["openapi-generator", "generate",
       "--input-spec", inputDir + "/" + yaml,
       "--generator-name", commandMap[kind],
       "--package-name", name,
       "--output", outputDir + "/" + name + "-" + kind]
    }

    /** The generator command for one build kind and spec file, as one string:
        the fixed-order command words joined by single spaces. */
    function GenerateCommand(kind: Str, yaml: Str): (command: Str)
      requires kind in commandMap
      ensures command == Join(CommandWords(kind, yaml), " ")
    {
      CommandIsJoin(Options(kind, yaml));
      "openapi-generator generate " + OptionsString(Options(kind, yaml))
    }

    /** The argument list handed to the process: the command split on
        whitespace. */
    function Argv(kind: Str, yaml: Str): (argv: seq<Str>)
      requires kind in commandMap
      ensures forall i :: 0 <= i < |argv| ==> argv[i] != [] && NoSpace(argv[i])
    {
      Tokens(GenerateCommand(kind, yaml))
    }

    /** No word of the command holds whitespace when the working directory
        and the spec name hold none. */
    lemma CommandWordsNoSpace(kind: Str, yaml: Str)
      requires Valid() && IsBuildKind(kind)
      requires NoSpace(directory) && NoSpace(yaml)
      ensures forall i :: 0 <= i < |CommandWords(kind, yaml)| ==> NoSpace(CommandWords(kind, yaml)[i])
    {
      var name := NameFromYaml(yaml);
      NameFromYamlNoSpace(yaml);
      FlagsNoSpace();
      ValuePiecesNoSpace();
      assert NoSpace(inputDir + "/" + yaml);
      assert NoSpace(outputDir + "/" + name + "-" + kind);
    }

    /** When the working directory and the spec name hold no whitespace, the
        process receives the fixed-order command words, except that an empty service
        name leaves no word behind. */
    lemma ArgvIsCommandWords(kind: Str, yaml: Str)
      requires Valid() && IsBuildKind(kind)
      requires NoSpace(directory) && NoSpace(yaml)
      ensures Argv(kind, yaml) == NonEmpty(CommandWords(kind, yaml))
    {
      CommandWordsNoSpace(kind, yaml);
      TokensOfJoin(CommandWords(kind, yaml));
    }

    /** With a non-empty service name the process receives exactly ten words:
        the tool, `generate`, and the four flags in their fixed order at the
        even positions, each followed by its value. */
    lemma ArgvHasTenWords(kind: Str, yaml: Str)
      requires Valid() && IsBuildKind(kind)
      requires NoSpace(directory) && NoSpace(yaml) && NameFromYaml(yaml) != []
      ensures var argv := Argv(kind, yaml);
        |argv| == 10 && argv[0] == "openapi-generator" && argv[1] == "generate" &&
        argv[2] == "--input-spec" && argv[3] == inputDir + "/" + yaml &&
        argv[4] == "--generator-name" && argv[5] == commandMap[kind] &&
        argv[6] == "--package-name" && argv[7] == NameFromYaml(yaml) &&
        argv[8] == "--output" && argv[9] == outputDir + "/" + NameFromYaml(yaml) + "-" + kind
    {
      ArgvIsCommandWords(kind, yaml);
      NonEmptyOfNonEmpty(CommandWords(kind, yaml));
    }

    /** With an empty service name the split command has only nine words:
        `--package-name` is directly followed by `--output`, and the output
        folder is `{output_dir}/-{kind}`. */
    lemma ArgvWithoutServiceName(kind: Str, yaml: Str)
      requires Valid() && IsBuildKind(kind)
      requires NoSpace(directory) && NoSpace(yaml) && NameFromYaml(yaml) == []
      ensures var argv := Argv(kind, yaml);
        |argv| == 9 && argv[6] == "--package-name" && argv[7] == "--output" &&
        argv[8] == outputDir + "/-" + kind
    {
      ArgvIsCommandWords(kind, yaml);
      var words := CommandWords(kind, yaml);
      var front, back := words[..7], words[8..];
      assert words == front + [[]] + back;
      NonEmptyAppend(front + [[]], back);
      NonEmptyAppend(front, [[]]);
      assert NonEmpty([[]]) == [];
      NonEmptyOfNonEmpty(front);
      NonEmptyOfNonEmpty(back);
      assert outputDir + "/" + [] + "-" + kind == outputDir + "/-" + kind;
    }

    /** One build: lower-case the kind, reject anything but `server` and
        `client` before a command is made, otherwise start the generator with
        the split command; on success the result is the log line. */
    function Build(buildType: Str, yaml: Str, spawnFails: seq<Str> -> bool): (r: Result<Str, BuildError>)
      requires Valid()
      ensures r.Failure? && r.error.InvalidBuildKind? <==> !IsBuildKind(Lower(buildType))
      ensures r.Failure? && r.error.InvalidBuildKind? ==> r.error.buildType == Lower(buildType)
      ensures r.Failure? && r.error.SpawnFailed? ==> r.error.argv == Argv(Lower(buildType), yaml)
      ensures r.Success? <==> IsBuildKind(Lower(buildType)) && !spawnFails(Argv(Lower(buildType), yaml))
      ensures r.Success? ==> r.value == NameFromYaml(yaml) + "-" + Lower(buildType) + " built."
    {
      var kind := Lower(buildType);
      if !IsBuildKind(kind) then
        Failure(InvalidBuildKind(kind))
      else
        var argv := Argv(kind, yaml);
        if spawnFails(argv) then Failure(SpawnFailed(argv))
        else Success(NameFromYaml(yaml) + "-" + kind + " built.")
    }

    /** The kind is lower-cased before anything else: a build behaves exactly as
        the build of the lower-cased kind, so `SERVER` and `Server` behave as
        `server`. */
    lemma BuildIgnoresCase(buildType: Str, yaml: Str, spawnFails: seq<Str> -> bool)
      requires Valid()
      ensures Build(buildType, yaml, spawnFails) == Build(Lower(buildType), yaml, spawnFails)
    {
      LowerFacts(buildType);
    }

    /** A kind that is not `server` or `client` after lower-casing is rejected
        before any command is made: the generator's behaviour plays no part. */
    lemma BuildRejectsBeforeSpawn(buildType: Str, yaml: Str, spawnFails: seq<Str> -> bool, otherFails: seq<Str> -> bool)
      requires Valid() && !IsBuildKind(Lower(buildType))
      ensures Build(buildType, yaml, spawnFails) == Build(buildType, yaml, otherFails)
    {
    }

    /** The result of every possible build, with the generator's fate given
        by `spawnFails`. */
    function Results(spawnFails: seq<Str> -> bool): (results: BuildRequest -> Result<Str, BuildError>)
      requires Valid()
    {
      (r: BuildRequest) => Build(r.kind, r.yaml, spawnFails)
    }

    /** A build of kind `server` or `client` can only fail because starting
        the generator raised. */
    lemma KnownKindFailsOnlyBySpawn(spawnFails: seq<Str> -> bool, request: BuildRequest)
      requires Valid() && (request.kind == "server" || request.kind == "client")
      ensures Results(spawnFails)(request).Failure? ==> Results(spawnFails)(request).error.SpawnFailed?
    {
      if request.kind == "server" { LowerOfLower("server"); } else { LowerOfLower("client"); }
    }

    /** Builds every entry of the listing, server then client, stopping at the
        first build that fails. `attempted` is the builds that were started. */
    method BuildAll(listing: seq<Str>, spawnFails: seq<Str> -> bool)
      returns (attempted: seq<BuildRequest>, outcome: Result<(), BuildError>)
      requires Valid()
      ensures (attempted, outcome) == RunPlan(BuildPlan(listing), Results(spawnFails))
      ensures outcome.Failure? ==> outcome.error.SpawnFailed?
    {
      ghost var results := Results(spawnFails);
      attempted := [];
      var i := 0;
      while i < |listing|
        invariant 0 <= i <= |listing|
        invariant attempted == BuildPlan(listing[..i])
        invariant RunPlan(attempted, results) == (attempted, Success(()))
      {
        var server, client := BuildRequest("server", listing[i]), BuildRequest("client", listing[i]);
        RunPlanEntry(listing, i, results);
        BuildPlanStep(listing, i);
        var built := Build(server.kind, server.yaml, spawnFails);
        assert results(server) == built;
        if built.Failure? {
          KnownKindFailsOnlyBySpawn(spawnFails, server);
          return attempted + [server], Failure(built.error);
        }
        built := Build(client.kind, client.yaml, spawnFails);
        assert results(client) == built;
        if built.Failure? {
          KnownKindFailsOnlyBySpawn(spawnFails, client);
          return attempted + [server, client], Failure(built.error);
        }
        attempted := attempted + [server, client];
        i := i + 1;
      }
      assert listing[..i] == listing;
      outcome := Success(());
    }
  }

  /** Construction: fails when the working directory is not an existing
      directory, and then nothing is derived; otherwise the fields are derived
      from it. `isDir` stands for the filesystem check. */
  method NewGenerator(isDir: bool, directory: Str := ".") returns (r: Result<Generator, InitError>)
    ensures r.Failure? <==> !isDir
    ensures r.Failure? ==> r.error == DirectoryNotFound(directory)
    ensures r.Success? ==> fresh(r.value) && r.value.Valid() && r.value.directory == directory
  {
    if !isDir {
      return Failure(DirectoryNotFound(directory));
    }
    var g := new Generator(directory);
    r := Success(g);
  }
}
