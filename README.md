# ecs-template, modelled in Dafny

ecs-template renders files for containers. It is called with `--file src,dest`,
`--dir src,dest`, `--glob pattern` and `--manifest ref` flags. It does the
following, in order:

- It turns every declaration into a (source, dest) pair. Each half is rendered
  as a Go template.
- It expands globs into in-place pairs, where source and dest are the same.
- It reads manifests (YAML lists of dirs, globs and files). It fetches a
  manifest's dirs first, then expands its globs, then collects its files.
- It fetches directories, then files, with go-getter.
- It renders every file pair's destination in place and copies the source's
  permission bits onto it.

Inside the templates, the functions `ssm`, `ssmJSON`, `ssmPath` and `kms` read
AWS SSM parameters and KMS-decrypted values. Their answers are memoised in three
package-level caches. The AWS clients are created lazily, the first time one of
these functions is used.

The project models both halves as the imperative code they are:

- `cmd.dfy`: class `Cmd.Cli` holds the package variables `filePairs`,
  `dirPairs`, the client's `Mode`, and a trace of every effect on the outside
  world.
- `functions.dfy`: class `Functions.SecretFunctions` holds the two clients, the
  three caches, and a log of AWS calls.

Effects are oracles. The template engine, globbing, go-getter, the file system,
YAML, AWS, base64 and JSON are function-valued fields of `Pipeline.Env` and
`AwsFunctions.Aws`. Each oracle that touches the world is given the history of
events so far.

Every method is proved to return exactly what a specification function returns,
and to leave exactly the state that function leaves:

- `Pipeline.FilePairs`, `GlobPairs`, `FetchDirs`, `FetchFiles`, `Templates`,
  `Manifests`, `Collect`, `Execute` and `RunRoot`, for cmd/root.go;
- `AwsFunctions.Bootstrap`, `SsmValue`, `SsmJson`, `SsmPath` and `KmsValue`, for
  functions/main.go.

The properties of the program are proved as lemmas about those functions:

- `Pairs` covers declaration parsing.
- `PipelineProperties` covers each stage.
- `RootProperties` covers the whole command.
- `SecretsProperties` covers the caches.

Files:

- `wrappers.dfy`: `Option`, `Result`.
- `pairs.dfy`: `strings.Split`, `strings.TrimSpace`, and the parsing of one
  declaration.
- `pipeline.dfy`: events, oracles, and the specification functions of cmd/root.go.
- `pipeline_properties.dfy`, `root_properties.dfy`: the properties of cmd/root.go.
- `cmd.dfy`: the imperative cmd/root.go.
- `secrets.dfy`: the specification functions of functions/main.go.
- `secrets_properties.dfy`: their properties.
- `functions.dfy`: the imperative functions/main.go and `FuncMap`.

Where the code differs from the tool's documented behaviour, the model follows
the code:

- A declaration is split on commas first, and then each half is rendered; the
  whole declaration is not rendered before the split.
- Any pieces between the first and the last comma are dropped.
- A declaration with no text becomes the pair ("", "") and is not an error.
- `ssmCache` is keyed by the parameter name alone, without the decryption flag.
  So a value fetched without decryption is returned later even to a call that
  asks for decryption, and the other way round. `SecretsProperties.SsmValueMemoized`
  states this.
- `parseFileDestinationTemplates` renders `v.dest` as given. The absolute paths
  are used only to decide on the permission copy and to perform it.
- Stat of the source happens after the destination is rendered.
- `bootstrapClients` returns the error of a failed session. Its final
  `return err` reads the outer `err`, which is always nil, because the inner
  `sess, err :=` declares a new variable.

## Model

| member | source | states |
|---|---|---|
| Pairs.TrimSpace | cmd/root.go:202-203 | the result is an infix of the input with no white space at either end; everything cut off is white space |
| Pairs.TrimSpaceKeepsTrimmed | cmd/root.go:202-203 | text without white space at either end, or empty text, is left unchanged |
| Pairs.TrimSpaceIdempotent | cmd/root.go:202-203 | trimming twice gives the same as trimming once |
| Pairs.Split | cmd/root.go:199 | splitting yields at least one piece, and no piece contains the separator |
| Pairs.JoinSplit | cmd/root.go:199 | joining the pieces with the separator gives back the original text |
| Pairs.SplitJoin | cmd/root.go:199 | splitting the join of separator-free pieces gives those pieces back |
| Pairs.SplitWithoutSeparator | cmd/root.go:199 | text without a comma splits into itself alone |
| Pairs.SplitPrefix | cmd/root.go:199 | splitting `a,b`, where `a` has no comma, gives `a` followed by the pieces of `b` |
| Pairs.SplitSingleOnlyWithoutSeparator | cmd/root.go:199 | text splits into exactly one piece only when it has no comma |
| Pairs.SplitManyHasSeparator | cmd/root.go:199 | text that splits into several pieces contains a comma |
| Pairs.FirstPiece | cmd/root.go:199-202 | the first piece is the text before the first comma |
| Pairs.LastPiece | cmd/root.go:199-203 | the last piece is the text after the last comma |
| Pairs.ParseDeclaration | cmd/root.go:199-203 | one declaration split on commas, with the trimmed first piece as source and the trimmed last piece as dest; its properties are `FirstPiece`, `LastPiece`, `SourceBeforeFirstComma`, `DestAfterLastComma`, `NoCommaInPlace`, `SingleComma` and `NoComma` |
| Pairs.SourceBeforeFirstComma | cmd/root.go:199-202 | the source is the trimmed text before the first comma, or the whole trimmed text when there is no comma |
| Pairs.DestAfterLastComma | cmd/root.go:199-203 | the dest is the trimmed text after the last comma, or the whole trimmed text when there is no comma; middle pieces are dropped |
| Pairs.NoCommaInPlace | cmd/root.go:199-203 | a declaration without a comma gives an in-place pair (source equals dest) |
| Pairs.SingleComma | cmd/root.go:199-203 | with a single comma, the halves are the trimmed texts on either side |
| Pairs.NoComma | cmd/root.go:199-203 | without a comma, source and dest are both the trimmed text |
| Pairs.TrimSpaceExamples | cmd/root_test.go:30-33 | `" /foo "` trims to `/foo` and `" /bar   "` to `/bar` |
| Pairs.ParseDeclarationPairExample | cmd/root_test.go:30 | `" /foo , /bar   "` parses to (`/foo`, `/bar`) |
| Pairs.ParseDeclarationInPlaceExample | cmd/root_test.go:32 | `" /foo "` parses to (`/foo`, `/foo`) |
| Pipeline.SplitAll | cmd/root.go:198-204 | the first loop of parseFilePairs: one `ParseDeclaration` per declaration, in order, with nothing rendered yet; its ensures gives one pair per declaration, and `SplitAllSnoc` gives the loop step |
| Pipeline.RenderPairs | cmd/root.go:206-213 | the second loop of parseFilePairs: each pair's source, then its dest, goes through the template engine, and the first failure returns its error and no pairs; stated by `RenderPairsStep`, `RenderPairsSourceFails`, `RenderPairsDestFails`, `PipelineProperties.RenderPairsOk`, `RenderPairsValues` and `RenderPairsFailure` |
| Pipeline.FilePairs | cmd/root.go:196-215 | parseFilePairs: split every declaration, then render the pieces; stated by `PipelineProperties.FilePairsOutcome`, `FilePairsInPlace` and `RenderPairsOnlyRenders` |
| Pipeline.ExpandGlobs | cmd/root.go:220-231 | the loop of parseGlobs: each pattern is expanded in turn, and its matches are appended; a malformed pattern returns its error and no matches; stated by `ExpandGlobsStep`, `ExpandGlobsFails`, `PipelineProperties.ExpandGlobsOkEvents`, `ExpandGlobsOkMatches`, `ExpandGlobsMalformed` and `ExpandGlobsOnlyGlobs` |
| Pipeline.GlobPairs | cmd/root.go:217-236 | parseGlobs: expand every pattern, then run parseFilePairs on all matches together; stated by `GlobPairsExpanded`, `GlobPairsMalformed`, `PipelineProperties.GlobPairsOrder`, `GlobPairsInPlace` and `GlobPairsOnlyGlobsAndRenders` |
| Pipeline.DirFetch | cmd/root.go:241-260 | one round of fetchDirectories: a source that stats as a local directory is copied, anything else is fetched by go-getter in dir mode, both to the pair's dest; stated by `PipelineProperties.FetchDirsOk` and `RootProperties.FetchDirsPairs` |
| Pipeline.FetchDirs | cmd/root.go:238-263 | fetchDirectories: one copy or fetch per pair, in order, with the first failure ending the loop with its error; stated by `FetchDirsStep`, `FetchDirsFails`, `PipelineProperties.FetchDirsOnlyDirs`, `FetchDirsOk` and `FetchDirsFailure` |
| Pipeline.FetchFiles | cmd/root.go:265-281 | fetchFiles: in-place pairs are skipped, every other pair is fetched in file mode, in order, with the first failure ending the loop with its error; stated by `FetchFilesSkip`, `FetchFilesStep`, `FetchFilesFails`, `PipelineProperties.FetchFilesOk`, `FetchFilesFailure` and `FetchFilesNeverInPlace` |
| Pipeline.ExecFile | cmd/root.go:314-333 | execTemplateFile: read the file, render its body, write the result back, with the first failure returned; stated by `PipelineProperties.ExecFileEvents` |
| Pipeline.CopyPerm | cmd/root.go:297-302 | the permission copy: when the absolute paths differ and stat of the source does not report a missing file, the dest gets the source's mode; a stat error other than a missing file panics on the nil info; stated by `PipelineProperties.TemplateFileChmod` |
| Pipeline.TemplateFile | cmd/root.go:285-302 | one round of parseFileDestinationTemplates: render the dest in place, then copy the permission bits; stated by `PipelineProperties.TemplateFileChmod` and `TemplateFileEvents` |
| Pipeline.Templates | cmd/root.go:283-305 | parseFileDestinationTemplates: one round per pair, in order, with the first failure ending the loop with its error; stated by `TemplatesSnoc`, `TemplatesFailed`, `PipelineProperties.TemplatesOnlyTemplateEvents` and `TemplatesPaths` |
| Pipeline.LoadManifest | cmd/root.go:134-168 | rendering a manifest's reference, taking a temporary file, fetching the reference into it, reading it back and decoding it; each failure returns its error; stated by `PipelineProperties.LoadManifestEvents` and `OneManifestRendersFirst` |
| Pipeline.ResolveManifest | cmd/root.go:170-190 | the manifest's dirs are parsed and fetched at once, then its globs and files are parsed; it returns the glob pairs followed by the file pairs; stated by `PipelineProperties.ResolveManifestDirsBeforeGlobs` and `OneManifestPairs` |
| Pipeline.OneManifest | cmd/root.go:133-191 | one round of parseManifests: load, then resolve; stated by `PipelineProperties.OneManifestRendersFirst`, `OneManifestDirsBeforeGlobs` and `OneManifestPairs` |
| Pipeline.Manifests | cmd/root.go:129-194 | parseManifests: one round per reference, pairs appended in order, with the first failure returning its error and no pairs; stated by `ManifestsStep`, `ManifestsFails` and `PipelineProperties.ManifestsAppend` |
| Pipeline.ModeAfterManifests | cmd/root.go:133-177 | the client mode that parseManifests leaves: file mode set at the top of each round, dir mode once a round reaches fetchDirectories; `Cmd.Cli.ParseManifests` and `Cmd.Cli.ParseManifest` are proved to leave it |
| Pipeline.RunRoot | cmd/root.go:77-127 | runRootCmd: help when no flag is given, otherwise collect, then execute; stated by `RootProperties.RunRootHelp`, `RunRootPairs`, `RunRootPhases`, `RunRootStopsEarly`, `RunRootCollects` and `RunRootExecutes`, and `Cmd.Cli.RunRootCmd` is proved to follow it |
| Pipeline.SplitAllSnoc | cmd/root.go:198-204 | the first loop appends exactly one split pair per declaration, in order |
| Pipeline.RenderPairsStep | cmd/root.go:206-213 | a round where both halves render replaces that pair by its rendering and continues |
| Pipeline.RenderPairsSourceFails | cmd/root.go:207-209 | a source that does not render ends the loop with that error and no pairs |
| Pipeline.RenderPairsDestFails | cmd/root.go:210-212 | a dest that does not render ends the loop with that error, after the source was rendered |
| Pipeline.GlobPairsExpanded | cmd/root.go:217-236 | when the patterns expand, parseGlobs is parseFilePairs on the concatenated matches |
| Pipeline.GlobPairsMalformed | cmd/root.go:222-224 | a malformed pattern makes parseGlobs return its error and no pairs |
| Pipeline.ExpandGlobsStep | cmd/root.go:220-231 | a round whose pattern expands appends its matches and one glob event |
| Pipeline.ExpandGlobsFails | cmd/root.go:222-224 | a round whose pattern is malformed ends the loop with that error |
| Pipeline.FetchDirsStep | cmd/root.go:240-261 | a round that succeeds appends that pair's copy or fetch and continues |
| Pipeline.FetchDirsFails | cmd/root.go:247-260 | a round whose copy or fetch fails ends the loop with that error |
| Pipeline.FetchFilesSkip | cmd/root.go:269-271 | an in-place pair is skipped with no event |
| Pipeline.FetchFilesStep | cmd/root.go:275-278 | a successful fetch appends one file-mode fetch and continues |
| Pipeline.FetchFilesFails | cmd/root.go:276-278 | a failing fetch ends the loop with that error |
| Pipeline.TemplatesSnoc | cmd/root.go:284-303 | after a successful prefix, one more round runs that pair's template step |
| Pipeline.TemplatesFailed | cmd/root.go:293-295 | once a prefix of the pairs fails, the whole list fails with the same result and events |
| Pipeline.ManifestsStep | cmd/root.go:133-191 | a successful manifest appends its pairs and continues, leaving the mode it left |
| Pipeline.ManifestsFails | cmd/root.go:138-189 | a manifest that fails ends parseManifests with its error and no pairs |
| Pipeline.Collect | cmd/root.go:88-110 | the collecting stages either finish or stop with a fatal outcome naming one of the four collecting stages, and they only append to the trace |
| Pipeline.Execute | cmd/root.go:112-126 | the executing stages end completed or fatal, change no pair, and only append to the trace |
| PipelineProperties.Renders | cmd/root.go:206-213 | rendering pairs that all render issues the source render, then the dest render, pair by pair |
| PipelineProperties.FirstUnrenderable | cmd/root.go:206-213 | every pair before the returned position renders, and the pair at it does not |
| PipelineProperties.RenderPairsOk | cmd/root.go:206-214 | the render loop succeeds exactly when every pair renders |
| PipelineProperties.RenderPairsValues | cmd/root.go:206-214 | on success, one rendered pair per input, in order, after source-then-dest renders |
| PipelineProperties.RenderPairsFailure | cmd/root.go:206-213 | on failure, the error comes from the first half that does not render; earlier pairs were rendered and nothing after |
| PipelineProperties.FilePairsOutcome | cmd/root.go:196-215 | parseFilePairs returns exactly one pair per declaration, in order, each half rendered separately after the split; otherwise it returns an error and no pairs |
| PipelineProperties.FilePairsInPlace | cmd/root.go:196-215 | comma-free declarations become in-place pairs of their rendering |
| PipelineProperties.ExpandGlobsOkEvents | cmd/root.go:220-231 | with well-formed patterns, there is exactly one glob per pattern, in order |
| PipelineProperties.ExpandGlobsOkMatches | cmd/root.go:220-231 | the matches are every pattern's matches, concatenated in pattern order |
| PipelineProperties.ExpandGlobsMalformed | cmd/root.go:220-231 | the loop stops at the first malformed pattern, having expanded only the patterns before it |
| PipelineProperties.GlobPairsOrder | cmd/root.go:217-236 | every pattern is expanded before any match is rendered |
| PipelineProperties.GlobPairsInPlace | cmd/root.go:217-236 | every comma-free match becomes an in-place pair, with source and dest both the rendered match, in order |
| PipelineProperties.FetchDirsOnlyDirs | cmd/root.go:238-263 | fetchDirectories only copies directories or fetches in dir mode |
| PipelineProperties.FetchDirsOk | cmd/root.go:238-263 | on success, pair i is the i-th action; it is a copy if its source is a local directory and a dir-mode fetch otherwise |
| PipelineProperties.FetchDirsFailure | cmd/root.go:238-263 | on failure, the pairs before it were moved as on success, the failing copy or fetch is the last event, and its error is returned |
| PipelineProperties.FileGets | cmd/root.go:267-279 | every fetch listed is a file-mode fetch whose source differs from its dest |
| PipelineProperties.FileGetsFrom | cmd/root.go:267-279 | every fetch listed is of one of the given pairs |
| PipelineProperties.FetchFilesOk | cmd/root.go:265-281 | on success, there is exactly one file-mode fetch per pair not in place, in order |
| PipelineProperties.FetchFilesFailure | cmd/root.go:265-281 | on failure, some pair not in place failed to fetch, after the pairs before it were fetched as on success |
| PipelineProperties.FetchFilesNeverInPlace | cmd/root.go:268-271 | fetchFiles never fetches an in-place pair, and only fetches pairs it was given |
| PipelineProperties.ExecFileEvents | cmd/root.go:314-333 | execTemplateFile reads the file once, and writes the rendered body back exactly when reading and rendering succeeded |
| PipelineProperties.TemplateFileChmod | cmd/root.go:285-302 | chmod happens exactly when the absolute paths differ and stat finds the source; the dest gets the source's mode; another stat error panics |
| PipelineProperties.TemplateFileEvents | cmd/root.go:285-302 | a round reads and writes exactly what execTemplateFile on the destination reads and writes; the permission copy reads and writes no file |
| PipelineProperties.TemplatesOnlyTemplateEvents | cmd/root.go:283-305 | parseFileDestinationTemplates only reads files, renders, writes files and chmods |
| PipelineProperties.TemplatesPaths | cmd/root.go:283-305 | every destination, in-place ones included, is read and written in order; a failure stops after a prefix |
| PipelineProperties.RenderPairsOnlyRenders | cmd/root.go:196-215 | parseFilePairs does nothing but render |
| PipelineProperties.ExpandGlobsOnlyGlobs | cmd/root.go:220-231 | the glob loop does nothing but expand patterns |
| PipelineProperties.GlobPairsOnlyGlobsAndRenders | cmd/root.go:217-236 | parseGlobs only expands patterns and renders |
| PipelineProperties.LoadManifestEvents | cmd/root.go:134-168 | loading a manifest renders its reference, takes a temporary file, and fetches the rendered reference into it in file mode; it neither globs nor fetches a directory |
| PipelineProperties.OneManifestRendersFirst | cmd/root.go:134-157 | the reference is rendered before anything else, and the rendered reference is what gets fetched |
| PipelineProperties.ResolveManifestDirsBeforeGlobs | cmd/root.go:170-190 | a manifest's dirs are fetched before any of its globs is expanded |
| PipelineProperties.OneManifestDirsBeforeGlobs | cmd/root.go:133-190 | within one manifest, every directory fetch comes before every glob |
| PipelineProperties.OneManifestPairs | cmd/root.go:170-190 | a manifest yields its glob pairs followed by one pair per file declaration; its dirs are fetched but not returned |
| PipelineProperties.ManifestsAppend | cmd/root.go:129-194 | parseManifests over two lists is the first list's pairs and events, then the second's |
| RootProperties.RunRootHelp | cmd/root.go:78-84 | help is shown exactly when no flag is given, and then nothing changes |
| RootProperties.CollectPairs | cmd/root.go:88-110 | filePairs gains the manifest pairs, then the glob pairs, then one rendered pair per file flag; dirPairs gains one rendered pair per dir flag |
| RootProperties.CollectManifestFatal | cmd/root.go:89-92 | the manifest stage is the fatal one exactly when parseManifests fails; the run stops with its error, both slices unchanged, and the trace ending with the manifests' events |
| RootProperties.CollectDirFlagFatal | cmd/root.go:89-98 | the dir-flag stage is the fatal one exactly when the manifests went through and parsing the dir flags fails; the run stops with its error, the manifest pairs collected, no dir pair added, and the trace ending with the dir flags' renders |
| RootProperties.CollectGlobFatal | cmd/root.go:89-104 | the glob stage is the fatal one exactly when the stages before it went through and parseGlobs fails; the run stops with its error, with the pairs of the earlier stages, and the trace ending with the globs' events |
| RootProperties.CollectFileFlagFatal | cmd/root.go:89-110 | the file-flag stage is the fatal one exactly when the stages before it went through and parsing the file flags fails; the run stops with its error, with the pairs of the earlier stages, and the trace ending with the file flags' renders |
| RootProperties.RunRootPairs | cmd/root.go:88-126 | once collection succeeded, the final pairs are the collected ones |
| RootProperties.FetchDirsPairs | cmd/root.go:238-263 | when fetchDirectories succeeds, event i copies or dir-fetches dir pair i, from its source to its dest |
| RootProperties.ExecutePhases | cmd/root.go:112-126 | directory fetches come before file fetches, which come before template work; a failing stage is the last; a complete run copied or fetched every dir pair in order from its source to its dest, fetched every file pair not in place, and read and wrote every dest |
| RootProperties.RunRootPhases | cmd/root.go:77-127 | the trace is the old trace, then exactly the collecting stages' events, then the dir fetches, then the file fetches, then the template work, with a stage's failure ending the run |
| RootProperties.RunRootStopsEarly | cmd/root.go:78-110 | a run that stops before executing ends with help and nothing changed, or with the failing stage's fatal outcome and the state the collecting stages left; it does no fetch and no template work after that |
| RootProperties.RunRootCollects | cmd/root.go:88-113 | a run that executes got past every collecting stage |
| RootProperties.RunRootExecutes | cmd/root.go:112-126 | a run that executes ends with the phases of the executing stages |
| Cmd.Cli.constructor | cmd/root.go:27-31 | the package starts with no pairs and a client with no mode |
| Cmd.Cli.ExecTemplateString | cmd/root.go:307-312 | it returns the template engine's result and logs the render |
| Cmd.Cli.ParseFilePairs | cmd/root.go:196-215 | it returns and appends exactly what `Pipeline.FilePairs` describes |
| Cmd.Cli.RenderAll | cmd/root.go:206-214 | its loop returns and appends exactly what `Pipeline.RenderPairs` describes |
| Cmd.Cli.ParseGlobs | cmd/root.go:217-236 | it returns and appends exactly what `Pipeline.GlobPairs` describes |
| Cmd.Cli.ExpandPatterns | cmd/root.go:220-231 | its loop returns and appends exactly what `Pipeline.ExpandGlobs` describes |
| Cmd.Cli.FetchDirectories | cmd/root.go:238-263 | it sets dir mode and returns and appends exactly what `Pipeline.FetchDirs` describes |
| Cmd.Cli.FetchFiles | cmd/root.go:265-281 | it sets file mode and returns and appends exactly what `Pipeline.FetchFiles` describes |
| Cmd.Cli.ExecTemplateFile | cmd/root.go:314-333 | it returns and appends exactly what `Pipeline.ExecFile` describes |
| Cmd.Cli.ExecTemplatePair | cmd/root.go:285-302 | it returns and appends exactly what `Pipeline.TemplateFile` describes |
| Cmd.Cli.ParseFileDestinationTemplates | cmd/root.go:283-305 | its loop returns and appends exactly what `Pipeline.Templates` describes |
| Cmd.Cli.LoadManifestFile | cmd/root.go:134-168 | with the client in file mode (set by the caller, cmd/root.go:134), it returns and appends exactly what `Pipeline.LoadManifest` describes |
| Cmd.Cli.ParseManifest | cmd/root.go:134-190 | it returns and appends what `Pipeline.OneManifest` describes; it leaves the client in dir mode exactly when the manifest got as far as fetchDirectories, and in file mode otherwise |
| Cmd.Cli.ParseManifests | cmd/root.go:129-194 | its loop returns what `Pipeline.Manifests` describes, and leaves the mode `ModeAfterManifests` predicts |
| Cmd.Cli.CollectFlags | cmd/root.go:88-110 | the package slices, mode and trace end as `Pipeline.Collect` describes |
| Cmd.Cli.ExecutePairs | cmd/root.go:112-126 | mode, trace and outcome end as `Pipeline.Execute` describes |
| Cmd.Cli.RunRootCmd | cmd/root.go:77-127 | the outcome and the whole package state are those of `Pipeline.RunRoot` |
| AwsFunctions.Bootstrap | functions/main.go:25-36 | bootstrapClients: when a client is missing, one session attempt that sets both clients on success and returns the session error on failure; stated by `SecretsProperties.BootstrapOnce`, `BootstrapIdempotent`, `BootstrapRetries` and `BootstrapGrows` |
| AwsFunctions.SsmValue | functions/main.go:69-89 | ssmValue: bootstrap, then the cached value or one GetParameter whose value is cached under the name; stated by `SecretsProperties.SsmValueHit`, `SsmValueMiss`, `SsmValueMemoized`, `SsmValueGrows` and `SsmValueStaysMemoized` |
| AwsFunctions.SsmJson | functions/main.go:91-102 | ssmJSON: ssmValue followed by a JSON decode of the text; stated by `SecretsProperties.SsmJsonCachesTextOnly` |
| AwsFunctions.Collected | functions/main.go:121-126 | the paging callback: every page's parameters appended in page order; stated by `SecretsProperties.CollectedAppend` and `CollectedCons` |
| AwsFunctions.FoldParams | functions/main.go:131-133 | the loop that turns the parameters into a name-to-value map; stated by `SecretsProperties.FoldParamsKeys` and `FoldParamsLastWins` |
| AwsFunctions.SsmPath | functions/main.go:104-136 | ssmPath: bootstrap, then the cached map or one paged lookup whose fold is cached under the path when paging completed; stated by `SecretsProperties.SsmPathHit`, `SsmPathMiss` and `SsmPathGrows` |
| AwsFunctions.KmsValue | functions/main.go:138-159 | kmsValue: bootstrap, then the cached plaintext, or a base64 decode and one Decrypt whose plaintext is cached under the ciphertext; stated by `SecretsProperties.KmsValueHit`, `KmsValueMiss` and `KmsValueGrows` |
| SecretsProperties.BootstrapOnce | functions/main.go:25-36 | with both clients present nothing happens; otherwise there is one session attempt; success sets both clients, failure sets neither; no cache is touched |
| SecretsProperties.BootstrapIdempotent | functions/main.go:27 | after a successful bootstrap, a second one does nothing |
| SecretsProperties.BootstrapRetries | functions/main.go:27-31 | after a failed bootstrap, the next one tries to create a session again |
| SecretsProperties.BootstrapGrows | functions/main.go:25-36 | bootstrapping forgets no client, changes no cache, and only appends calls |
| SecretsProperties.BootstrapFirst | functions/main.go:69-159 | when bootstrapping fails, every secret function fails with the session error, even for a cached key, and calls nothing more |
| SecretsProperties.SsmValueHit | functions/main.go:74-76 | a cached name returns the cached value with no call, whatever the decryption flag |
| SecretsProperties.SsmValueMiss | functions/main.go:78-88 | a miss makes exactly one GetParameter with the name and flag; on success the value is cached under the name and returned; on failure the caches are unchanged |
| SecretsProperties.SsmValueMemoized | functions/main.go:74-87 | after ssmValue answers, a call with either flag returns the same value and calls nothing |
| SecretsProperties.SsmValueGrows | functions/main.go:69-89 | ssmValue forgets nothing, and a failure changes no cache |
| SecretsProperties.SsmJsonCachesTextOnly | functions/main.go:91-102 | ssmJSON leaves exactly the state ssmValue leaves; it succeeds exactly when the text parses; a parse failure keeps the text cached |
| SecretsProperties.CollectedAppend | functions/main.go:122-126 | collecting two runs of pages is collecting each, one after the other |
| SecretsProperties.CollectedCons | functions/main.go:122-126 | the first page's parameters come first, followed by the rest in page order |
| SecretsProperties.FoldParamsKeys | functions/main.go:131-133 | the folded map has exactly the names of the parameters |
| SecretsProperties.FoldParamsLastWins | functions/main.go:131-133 | each name maps to the value of its last occurrence |
| SecretsProperties.SsmPathHit | functions/main.go:109-111 | a cached path returns the cached map with no call, whatever the flags |
| SecretsProperties.SsmPathMiss | functions/main.go:113-135 | one paged lookup with the path and both flags; the map is cached under the path only when paging completed, and is the fold of all pages in order |
| SecretsProperties.SsmPathGrows | functions/main.go:104-136 | ssmPath forgets nothing, and a failure changes no cache |
| SecretsProperties.KmsValueHit | functions/main.go:143-145 | a cached ciphertext returns the cached plaintext before any decoding, with no call |
| SecretsProperties.KmsValueMiss | functions/main.go:147-158 | a decode failure makes no call and adds no entry; otherwise there is one Decrypt of the decoded blob; a failure adds no entry; success caches and returns the plaintext |
| SecretsProperties.KmsValueGrows | functions/main.go:138-159 | kmsValue forgets nothing, and a failure changes no cache |
| SecretsProperties.ApplyGrows | functions/main.go:69-159 | any one template function forgets nothing, and with both clients present it creates no session |
| SecretsProperties.RunGrows | functions/main.go:17-36 | over any sequence of template calls, caches are never invalidated and clients stay; once both exist, no further session is created |
| SecretsProperties.SsmValueStaysMemoized | functions/main.go:74-87 | a name ssmValue has answered for gets the same answer, with no call, after any later calls |
| Functions.SecretFunctions.constructor | functions/main.go:17-21 | the package starts with no clients and empty caches |
| Functions.SecretFunctions.GetParametersByPathPages | functions/main.go:121-129 | its loop visits every page and collects the parameters in page order, and reports whether paging completed |
| Functions.SecretFunctions.BootstrapClients | functions/main.go:25-36 | the result and new state are those of `AwsFunctions.Bootstrap` |
| Functions.SecretFunctions.SsmValue | functions/main.go:69-89 | the result and new state are those of `AwsFunctions.SsmValue` |
| Functions.SecretFunctions.SsmJson | functions/main.go:91-102 | the result and new state are those of `AwsFunctions.SsmJson` |
| Functions.SecretFunctions.SsmPath | functions/main.go:104-136 | its fold loop builds `FoldParams` of the collected parameters; the result and new state are those of `AwsFunctions.SsmPath` |
| Functions.SecretFunctions.KmsValue | functions/main.go:138-159 | the result and new state are those of `AwsFunctions.KmsValue` |
| Functions.FuncMap | functions/main.go:54-67 | the map holds `ssm`, `ssmJSON`, `ssmPath`, `kms` and every sprig name; sprig entries win on a name clash; the result does not depend on the order sprig's names arrive in |

## Left out

- `newAwsSession` (functions/main.go:38-52), with its region discovery through
  the EC2 metadata service, is left out as network code. Session creation is a
  success-or-failure oracle.
- The real AWS calls, go-getter `Client.Get`, `copy.Copy`, `os.Stat`,
  `os.Chmod`, `ioutil.TempFile`, `ioutil.ReadFile` and `ioutil.WriteFile` are left
  out as I/O. Each is an oracle, or an event appended to the trace.
- The temporary files of manifests are never deleted in the source, either.
- The file mode literal `600` passed to `ioutil.WriteFile` (cmd/root.go:328) is
  not modelled, because it is a file-system detail.
- The internals of `text/template`, the sprig helpers, `doublestar.Glob`,
  `yaml.UnmarshalStrict`, `json.Unmarshal` and base64 decoding are left out as
  foreign code. They are partial oracles.
- Rendering is a function of the body alone, so templates that call the secret
  functions are not traced through the caches. `FilePairsInPlace`,
  `GlobPairsInPlace` and the in-place skip of fetchFiles rely on this: two
  renders of the same text give the same result. In the program, sprig
  functions such as `now`, `randAlphaNum` and `uuidv4` give a different result
  each time, so a comma-free declaration that uses them can become a pair whose
  halves differ.
- Go strings are bytes, but the model uses `seq<char>`. So invalid UTF-8, and
  how `strings.TrimSpace` treats it, is not modelled.
- `json.Unmarshal`'s values are kept as opaque text (`JsonValue`).
- The `template.Must` panic of cmd/root.go:309 is folded into the render
  oracle's failure.
- `filepath.IsAbs` is modelled as "starts with `/`" (Unix paths).
  `filepath.Join(pwd, p)` is the `joinPwd` oracle.
- Cobra flag registration, `mainPreRun`, `Execute`, `--quiet` and the
  `log.Printf` output are left out as CLI plumbing. `log.Fatalf` is a `Fatal`
  outcome that names the stage, and help with exit 0 is `ShowHelp`.
- The shared client's `Src` and `Dst` fields are not modelled. They appear
  only as the arguments of the `Get` event.
- The global `err` is not modelled, because every stage's error is its result.
- A panic of the Go code is an `Err` result:
  - `info.Mode()` on a nil `info` after a stat error other than "does not
    exist" is `StatPanicked`;
  - the secret functions' panics are `Failure` values.

  Recovering these panics inside the template engine is not modelled.
- The conversion of `resp.Plaintext` from bytes to a string is folded into the
  decrypt oracle, which returns the string.
- The loop `for k, v := range sprig.TxtFuncMap()` visits names in an order Go
  does not fix. `Functions.FuncMap` picks them in an arbitrary order, and its
  contract holds for every order. Sprig's functions appear only by name.
