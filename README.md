# codegen_tools in Dafny

`codegen_tools` wraps `openapi-generator`. A `Generator` is given a working
directory that must exist. It reads OpenAPI spec files from `{directory}/yamls`
and writes generated packages to `{directory}/apis`. For each spec file it runs
two builds, first a `server` build (generator `python-flask`) and then a
`client` build (generator `python`). Each build turns the spec file name into
a service name and renders a command line of the form

    openapi-generator generate --input-spec {input_dir}/{yaml} --generator-name {python|python-flask} --package-name {name} --output {output_dir}/{name}-{kind}

It then splits that line on whitespace and starts the process.

The project has two modules:

- `Text` (`text.dfy`) models the Python string operations the code is built
  from:
  - `sep.join`;
  - `s.split(c)` with a one-character separator, which keeps empty pieces;
  - `s.split()` with no argument, which cuts on runs of whitespace and drops
    empty pieces;
  - `s.lower()`, for ASCII letters only.
- `CodegenTools` (`codegen_tools.dfy`) models the wrapper:
  - service names;
  - option strings;
  - the `Generator` class, whose fields are set once by the constructor;
  - a single build;
  - the batch over a directory listing.

The service name is the final `/` segment of the spec name, cut before its
**first** `.`. So `a/b/petstore.v2.yaml` names `petstore`, not `v2`, and a
listing entry such as `.gitkeep` has an empty service name. The split command
then has only nine words, and `--package-name` is directly followed by
`--output`.

Build kinds are lower-cased, so `SERVER`, `Server` and `server` are the same
kind. Any other kind is rejected before a command is made.

The process is started with only its standard output piped
(codegen_tools/codegen_tools.py:116-118). Its standard error is therefore
never captured, and the `JavaError` branch cannot be taken. The exit status is
not inspected either. A build therefore fails only when starting the process
raises. The model represents this as a caller-supplied predicate
`spawnFails` over the argument list. A build that goes through yields the log
line `{name}-{kind} built.`.

Filesystem facts are inputs to the model: whether the directory exists
(`isDir`) and which entries `yamls` lists (`listing`).

## Model

| member | source | states |
|---|---|---|
| Text.JoinSnoc | codegen_tools/codegen_tools.py:49 | `sep.join`: one more part added to a non-empty list adds one separator and that part at the end, so the parts appear in order with `sep` between neighbours |
| Text.Split | codegen_tools/codegen_tools.py:40 | `split(c)` gives at least one piece, and no piece contains `c` |
| Text.SplitCount | codegen_tools/codegen_tools.py:40 | every occurrence of `c` cuts: there is one piece more than there are occurrences of `c` |
| Text.SplitJoin | codegen_tools/codegen_tools.py:40 | `split(c)` loses nothing: joining the pieces with `c` gives back the string |
| Text.SplitFirst | codegen_tools/codegen_tools.py:40 | `split(c)[0]` is the prefix before the first `c`, or the whole string |
| Text.SplitLast | codegen_tools/codegen_tools.py:40 | `split(c)[-1]` is the suffix after the last `c`, or the whole string |
| Text.Tokens | codegen_tools/codegen_tools.py:115 | `split()` yields only non-empty, whitespace-free tokens |
| Text.TokensOfJoin | codegen_tools/codegen_tools.py:115 | `split()` of whitespace-free words joined by single spaces gives back the words, minus the empty ones |
| Text.Lower | codegen_tools/codegen_tools.py:106 | `lower()` keeps the length, leaves no upper-case letter and changes only upper-case letters |
| Text.LowerFacts | codegen_tools/codegen_tools.py:106 | `lower()` turns each upper-case letter into the letter at the same place of the lower-case alphabet, and is idempotent |
| CodegenTools.FinalSegment | codegen_tools/codegen_tools.py:40 | the final segment is a `/`-free suffix of the path that follows a `/` or is the whole path |
| CodegenTools.FinalSegmentUnique | codegen_tools/codegen_tools.py:40 | any `/`-free suffix that starts the path or follows a `/` is the final segment |
| CodegenTools.NameFromYaml | codegen_tools/codegen_tools.py:38-40 | the service name has no `/` and no `.`; it is a prefix of the final segment, followed there by `.` or by nothing |
| CodegenTools.NameFromYamlUnique | codegen_tools/codegen_tools.py:38-40 | any `.`-free prefix of the final segment that ends it or is followed by `.` is the service name |
| CodegenTools.NameFromYamlIdempotent | codegen_tools/codegen_tools.py:38-40 | a service name is its own service name |
| CodegenTools.NameFromYamlParts | codegen_tools/codegen_tools.py:38-40 | `dir/stem.rest` names `stem` whatever the directory part and the dotted tail |
| CodegenTools.NameFromYamlNestedFile | codegen_tools/codegen_tools.py:40 | `a/b/petstore.v2.yaml` names `petstore` (cut at the first dot) |
| CodegenTools.NameFromYamlBareFile | codegen_tools/codegen_tools.py:40 | `petstore.yaml` names `petstore` |
| CodegenTools.DotFileHasEmptyName | codegen_tools/codegen_tools.py:40 | a listing entry `.gitkeep` has the empty service name |
| CodegenTools.NameFromYamlNoSpace | codegen_tools/codegen_tools.py:38-40 | a service name holds no whitespace when the spec name holds none |
| CodegenTools.OptionsString | codegen_tools/codegen_tools.py:43-49 | the option string is every key and value, in insertion order, joined by single spaces |
| CodegenTools.OptionsStringInsertionOrder | codegen_tools/codegen_tools.py:43-49 | no options render as `""`; inserting one more option under a new key appends a space and its `key value` item |
| CodegenTools.OptionsStringCons | codegen_tools/codegen_tools.py:43-49 | with two or more options the string starts with the first `key value` and a space |
| CodegenTools.OptionsStringTokens | codegen_tools/codegen_tools.py:43-49 | splitting the option string on whitespace yields the non-empty keys and values in order, when none holds whitespace (an empty value leaves no token) |
| CodegenTools.CommandIsJoin | codegen_tools/codegen_tools.py:99-102 | the command is the tool name, `generate` and the keys and values, joined by single spaces |
| CodegenTools.BuildKindExamples | codegen_tools/codegen_tools.py:106-108 | `SERVER`, `Server` and `Client` are accepted after lower-casing; `invalid` is rejected |
| CodegenTools.BuildPlan | codegen_tools/codegen_tools.py:74-78 | a listing of n entries plans 2n builds |
| CodegenTools.BuildPlanShape | codegen_tools/codegen_tools.py:74-78 | a listing of n entries plans 2n builds, with entry i built as server at 2i and as client at 2i+1 |
| CodegenTools.BuildPlanPrefix | codegen_tools/codegen_tools.py:74-78 | the plan of a prefix of the listing is a prefix of the plan |
| CodegenTools.PlanAfter | codegen_tools/codegen_tools.py:76-78 | the plan splits at entry n into the plan of the first n entries, the server and client builds of entry n, and the rest |
| CodegenTools.BuildPlanStep | codegen_tools/codegen_tools.py:76-78 | one entry more adds that entry's server build and then its client build to the plan |
| CodegenTools.RunPlan | codegen_tools/codegen_tools.py:74-78 | a batch starts a prefix of the plan, and the whole plan when it ends well |
| CodegenTools.RunPlanStopsAtFirstFailure | codegen_tools/codegen_tools.py:74-78 | a batch starts a prefix of the plan; every started build but the last succeeded; success means the whole plan ran and every build of it succeeded; failure reports the last started build's error |
| CodegenTools.RunPlanAppend | codegen_tools/codegen_tools.py:74-78 | running two plans back to back runs the second only if the first ended well |
| CodegenTools.RunPlanEntry | codegen_tools/codegen_tools.py:76-78 | after a clean run of the first i entries, a failed server build of entry i ends the batch, a failed client build ends it after the server build, and otherwise the batch has cleanly run one entry more |
| CodegenTools.RunPlanPair | codegen_tools/codegen_tools.py:76-78 | after a clean run, the server build and then the client build of one entry decide whether the batch stops or goes on |
| CodegenTools.Generator.constructor | codegen_tools/codegen_tools.py:66-72 | input folder `{directory}/yamls`, output folder `{directory}/apis`, kind map client→python and server→python-flask |
| CodegenTools.NewGenerator | codegen_tools/codegen_tools.py:55-72 | construction fails with the directory's name exactly when it is not a directory; otherwise a fresh generator with the derived fields |
| CodegenTools.Generator.Options | codegen_tools/codegen_tools.py:85-97 | the option dictionary has four entries with distinct keys |
| CodegenTools.Generator.CommandWords | codegen_tools/codegen_tools.py:80-102 | the fixed-order command words are the tool, `generate` and the option dictionary's keys and values in insertion order |
| CodegenTools.Generator.GenerateCommand | codegen_tools/codegen_tools.py:80-102 | the command is the fixed-order command words (tool, `generate`, then input spec, generator name, package name and output, each with its value) joined by single spaces |
| CodegenTools.Generator.CommandWordsNoSpace | codegen_tools/codegen_tools.py:80-102 | no word of the command holds whitespace when the directory and spec name hold none |
| CodegenTools.Generator.Argv | codegen_tools/codegen_tools.py:115 | the process receives only non-empty, whitespace-free words |
| CodegenTools.Generator.ArgvIsCommandWords | codegen_tools/codegen_tools.py:115 | the process receives the fixed-order command words, minus any empty one, when the directory and spec name hold no whitespace |
| CodegenTools.Generator.ArgvHasTenWords | codegen_tools/codegen_tools.py:115 | with a non-empty service name the process receives exactly ten words, with the flags at the even positions and each followed by its value |
| CodegenTools.Generator.ArgvWithoutServiceName | codegen_tools/codegen_tools.py:115 | with an empty service name only nine words remain, and `--package-name` is directly followed by `--output` |
| CodegenTools.Generator.Build | codegen_tools/codegen_tools.py:104-128 | rejected exactly when the lower-cased kind is not `server` or `client`, reporting that kind; succeeds exactly when the kind is accepted and starting the process with the split command does not raise; a failed start reports the argument list; success yields `{name}-{kind} built.` |
| CodegenTools.Generator.BuildIgnoresCase | codegen_tools/codegen_tools.py:106 | a build behaves exactly as the build of the lower-cased kind |
| CodegenTools.Generator.BuildRejectsBeforeSpawn | codegen_tools/codegen_tools.py:108-115 | a rejected kind never reaches the process: the outcome does not depend on the generator |
| CodegenTools.Generator.KnownKindFailsOnlyBySpawn | codegen_tools/codegen_tools.py:108-118 | a `server` or `client` build can only fail because starting the process raised |
| CodegenTools.Generator.BuildAll | codegen_tools/codegen_tools.py:74-78 | builds server then client for each entry in listing order and stops at the first failure (the batch run over the plan); a batch can only fail by a failed process start |

## Left out

- `type_check` (lines 19-35) is not modelled. Dafny's static types already
  guarantee what it checks at run time.
- `os.path.isdir` and `os.listdir` are inputs to the model. A failing
  `listdir`, for example a missing `yamls` folder, is not modelled.
- Process execution is left out. Starting `openapi-generator` is the input
  predicate `spawnFails` over the argument list, and the generated files are
  not modelled.
- `JavaError` (lines 12-16, 120-121) is not modelled. The branch is
  unreachable because standard error is not piped.
- Log records are not modelled as output. A successful build returns its log
  line as its result.
- Exception types and messages are reduced to error values. The rejection
  message on lines 109-112 is built from a one-element tuple. The tuple has no
  `format` method, so Python raises `AttributeError` instead of the intended
  `ValueError`. The model only records that the kind was rejected, and which
  lowered kind it was.
- `Text.Lower` lower-cases ASCII letters only. Python's `str.lower` also
  folds non-ASCII letters.
- `CodegenTools.Generator.BuildAll` treats the generator as a deterministic
  function of the argument list. Two builds with equal argument lists are
  assumed to start, or fail to start, alike.
