# wasm-web-ide-server, modelled in Dafny

The model covers the server behind a browser IDE. The server compiles Go
(through TinyGo) or AssemblyScript to WebAssembly and stores projects. It
covers four parts:

- **Export markers** (wasm/parse.go). This part pairs each `//export <name>`
  comment with the function declared right after it.
- **Compiler backends** (wasm/compile.go, wasm/tinygo.go,
  wasm/tinygo/compile.go, wasm/assemblyscript.go,
  wasm/assemblyscript/compile.go, modules/projects/compile.go,
  modules/wasm/service.go). Each backend:
  - seeds a temporary workspace;
  - runs the external tool;
  - turns its stderr into an error message, filtered or not, with or without
    a fallback;
  - reads the outputs;
  - releases the workspace on every path.
- **File and project views** (model/file.go, modules/model/file.go,
  model/project.go). This part covers:
  - the map-to-list conversion and its inverse;
  - file lookup;
  - the language read off a file name;
  - the project-language table;
  - the client view of a project.
- **Projects** (projects/repo.go, projects/service.go,
  projects/sharecode.go, s3/service.go). This is a state machine over two
  maps:
  - the metadata table `id -> Project`, whose share codes are unique;
  - the object bucket `key -> content`.

  Sources live under `<user>/<project>/src` and build outputs under
  `<user>/<project>/build`.

How the model stands in for what it cannot see:

- **External programs** (`tinygo`, `asc`, `go get`, `wasm-strip`,
  `wasm2wat`) are function-typed parameters. Each is called with the program,
  its arguments and the files of the workspace, and answers whether it
  succeeded, its stderr and the files it wrote.
- **The local file system** is the class `Workspace.Host`. What the
  operating system decides (the temporary name, which creates and writes
  fail) is a `HostOracle` record.
- **The bucket** is the class `ObjectStore.Bucket`. The requests it refuses
  are sets of keys, and its URL signer is a function.
- **The repository** is the class `ProjectsRepo.Repository`. A failure of
  a database write (insert, save, update, delete) is an optional message
  passed to the operation. Lookups fail only by finding no row.
- **Nondeterministic values.** Go's map iteration order and goroutine
  order, the random share codes and the generated ids are nondeterministic
  choices or inputs.

Some behaviours of the code that a reader might not expect:

- **Missing project versus another user's project.** `getProjectRecord`
  answers the store's `record not found` for a missing id and
  `project not found` for another user's project (projects/repo.go:126-134).
- **Deleting a project's files.** `DeleteProjectByID` deletes the record
  first. If deleting the files then fails, it returns the bucket's error,
  and the record stays deleted (projects/service.go:50-62).
- **A failed text-form conversion.** `compileTinyGo` fails the whole
  compile, and its result already carries the module bytes
  (wasm/tinygo.go:64-69).
- **Where new projects' files go.** `CreateProject` stores the default
  files under `{owner}/{owner}/src`, while every read looks under
  `{owner}/{project}/src` (see Findings).

## Model

| member | source | states |
|---|---|---|
| ExportParse.MarkerCommentsMembers | wasm/parse.go:21-27 | a comment is collected exactly when it is in the group and its text starts with `//export ` |
| ExportParse.MarkersOfMembers | wasm/parse.go:21-27 | the collected markers are exactly the file's comments, in any group, that start with `//export ` |
| ExportParse.MatchesMembers | wasm/parse.go:43-47 | a marker pairs with a declaration exactly when it is a function whose name is the marker text without `//export ` and that starts at the comment's end + 1 |
| ExportParse.ExportsMembers | wasm/parse.go:40-58 | every pair the scan emits comes from a received marker and a declaration that satisfy the pairing rule, and every such pair is emitted |
| ExportParse.ExportsCharacterised | wasm/parse.go:21-58 | a pair is exported iff its comment is a `//export ` comment of the file and its declaration is the adjacent function the marker names |
| ExportParse.NoMarkersNoExports | wasm/parse.go:40-58 | a file with no `//export ` comment yields no exports |
| ExportParse.NoMarkers | wasm/parse.go:21-27 | with no marker comment in any group, no marker is collected |
| ExportParse.NoMarkersInList | wasm/parse.go:22-26 | with no marker comment in a group, nothing is collected from it |
| ExportParse.MatchesAtMostOne | wasm/parse.go:43-53 | with distinct declaration positions, a marker pairs with at most one declaration, and with exactly one when an adjacent named function exists |
| ExportParse.NoPairNoMatches | wasm/parse.go:43-53 | a marker with no matching function emits nothing |
| ExportParse.OneExportPerMarker | wasm/parse.go:40-58 | when every marker is directly followed by the function it names, there is exactly one export per marker |
| ExportParse.ParseExportedComments | wasm/parse.go:16-31 | the scan returns the marker comments in file order |
| ExportParse.ParseDecls | wasm/parse.go:33-61 | the loop returns, marker by marker and declaration by declaration, every pair satisfying the rule |
| ExportParse.Parse | wasm/parse.go:90-104 | the exports are the pairs of the file's markers and declarations, each with a `//export ` comment whose rest is the function's name |
| ExportParse.ThreeMarkedFunctions | wasm/parse_test.go:9-39 | three adjacent markers before `add`, `sub` and `mul` give exactly three exports |
| ExportParse.MarkerName | wasm/parse_test.go:41-52 | `//export <name>` is a marker and trims to `<name>` |
| ExportParse.ExampleMarkers | wasm/parse_test.go:10-27 | the three-function file's markers are its three `//export` comments |
| ExportParse.BlankLineBreaksPairing | wasm/parse.go:45-47 | a function not starting right after the marker's end is never paired |
| Diagnostics.KeptLinesMembers | wasm/compile.go:65-70 | a line is kept exactly when it is a stderr line that mentions the file name |
| Diagnostics.KeptLinesAppend | wasm/compile.go:65-70 | filtering a longer stderr keeps the earlier lines' kept lines first, so stderr order is preserved |
| Diagnostics.KeptLinesHaveNoBreak | wasm/compile.go:65-70 | a kept line contains no line break |
| Diagnostics.KeepLines | wasm/compile.go:62-70 | the append loop returns exactly the stderr lines that mention the file, in order |
| Diagnostics.FallbackMessageLines | wasm/compile.go:72-74 | when some line mentions the file, the message splits back into exactly those lines in stderr order |
| Diagnostics.NoMatchingLine | wasm/compile.go:76-78 | when no line mentions the file, the fallback message is stderr unchanged and the filtered message is empty |
| Diagnostics.NothingKept | wasm/tinygo/compile.go:46-52 | no mentioning line means no kept line |
| Workspace.TempName | modules/wasm/service.go:31 | a `CreateTemp` pattern with no `*` gets the random part appended |
| Workspace.SeedTwoFiles | modules/projects/compile.go:28-47 | seeding two files succeeds iff the first seeding succeeds and the second file's create and write succeed; otherwise the first failing step's error is reported |
| Workspace.AddFile | wasm/compile.go:23-36 | after a create then a write, the file holds the content, or the failing step's error is returned and only the workspace changed |
| Workspace.CreateTempCodeDir | wasm/compile.go:13-39 | on success a fresh directory holds exactly the one named file with the code; on any failure the directory is removed, no path is returned and the host is unchanged |
| WasmCompile.Compile | wasm/compile.go:45-85 | the host ends as it began; a seeding failure returns that error; otherwise the outcome of the build in the seeded workspace |
| WasmCompile.InWorkspace | wasm/compile.go:56-83 | a failed build returns the `main.go` lines of stderr, or all of stderr when none mention it |
| WasmCompile.BuildInWorkspace | wasm/compile.go:56-83 | builds, strips and reads the output in the workspace, returning the outcome above; nothing outside the workspace changes |
| WasmCompile.StripOutcomeIgnored | wasm/compile.go:81-83 | two strippers that leave the same files give the same outcome: the stripper's own result is never looked at |
| WasmTinyGo.AfterBuild | wasm/tinygo.go:38-74 | success iff the build ran, left `main.wasm`, the hook (if any) accepted it and, with `GenWat`, `wasm2wat` converted it; success carries the module and, only with `GenWat`, its text; a failed build gives the empty result and stderr unchanged; a hook error aborts with the empty result; a failed conversion fails the compile with the module already in the result |
| WasmTinyGo.CompileTinyGo | wasm/tinygo.go:17-76 | the host ends as it began; a seeding failure gives the empty result; otherwise the outcome is `AfterBuild` of the build that ran on `main.go` alone |
| WasmTinyGo.BuildFailureIsStderr | wasm/tinygo.go:38-44 | a failed build gives the empty result and an error equal to stderr, since splitting and rejoining on `\n` changes nothing |
| TinyGoBackend.AfterBuild | wasm/tinygo/compile.go:44-74 | success iff the build ran, the module exists and the hook (if any) accepts it; the result is the module's bytes; a failed build gives only the stderr lines naming `main.go`, with no fallback; a hook error is returned as the hook's own |
| TinyGoBackend.CompileWithOpts | wasm/tinygo/compile.go:26-76 | the host ends as it began, and the result is the outcome of seeding, building and reading |
| TinyGoBackend.Compile | wasm/tinygo/compile.go:15-17 | equals `compileWithOpts` with no hook |
| TinyGoBackend.BuildFailureMessage | wasm/tinygo/compile.go:44-53 | a failed build's message splits into exactly the `main.go` lines of stderr in order, and is empty when none exist (no fallback) |
| WasmAssemblyScript.AscArgs | wasm/assemblyscript.go:25-34 | the arguments are `main.ts --outFile <wasm name>`, followed by `--textFile <wat name>` exactly when the text form is asked for |
| WasmAssemblyScript.AfterRun | wasm/assemblyscript.go:45-76 | success iff the run did not fail with non-empty stderr, the wasm output exists, the hook (if any) accepted it and, with `GenWat`, the wat output exists; success carries the wasm output and, only with `GenWat`, the wat output's text; any error gives the empty result; a message error arises iff the run failed with non-empty stderr and equals stderr; a hook error aborts |
| WasmAssemblyScript.CompileAssemblyScript | wasm/assemblyscript.go:11-78 | the host ends as it began, and the result is the seeding, output creation, run and read outcome |
| WasmAssemblyScript.BuildInWorkspace | wasm/assemblyscript.go:19-76 | creates the outputs, runs `asc` and reads the outputs, then removes the outputs it created; nothing outside the workspace changes |
| WasmAssemblyScript.RemoveOutputs | wasm/assemblyscript.go:23-32 | the deferred removals take out exactly the outputs that were created, and nothing outside the workspace |
| WasmAssemblyScript.CreateOutputs | wasm/assemblyscript.go:19-35 | creates the wasm output and, only with `GenWat`, the wat output, growing the command to name them; only the workspace changes |
| WasmAssemblyScript.RunAndRead | wasm/assemblyscript.go:37-76 | runs `asc` on the workspace and returns `AfterRun` of what it left |
| WasmAssemblyScript.TextFileOnlyOnRequest | wasm/assemblyscript.go:27-35 | the `--textFile` pair is present iff `GenWat` is set |
| WasmAssemblyScript.SilentFailureIgnored | wasm/assemblyscript.go:45-51 | a failed run with empty stderr has the same outcome as a successful one |
| AscBackend.Compile | wasm/assemblyscript/compile.go:12-65 | the host ends as it began, and the result is the fixed-option outcome with both outputs named by full path |
| AscBackend.BuildInWorkspace | wasm/assemblyscript/compile.go:24-63 | creates both outputs, runs `asc` with their full paths and reads both, then removes them; nothing outside the workspace changes |
| AscBackend.BothOutputs | wasm/assemblyscript/compile.go:39-63 | success iff the run succeeded or was silent and both outputs exist, carrying both; any failure carries the empty result |
| ProjectsCompile.Seeded | modules/projects/compile.go:28-47 | the workspace holds exactly `main.go` with the code and `go.mod` with the module text |
| ProjectsCompile.CreateTempCodeDir | modules/projects/compile.go:14-50 | success gives the fresh directory holding the two files; any failure removes it and returns the first failing step's error |
| ProjectsCompile.AfterSeed | modules/projects/compile.go:82-112 | a failed dependency fetch returns its stderr and the build does not run; a failed build returns the `main.go` lines of stderr, or all of stderr when none names it; a successful build returns `main.wasm` as the workspace holds it, or the error of opening it |
| ProjectsCompile.InstallDeps | modules/projects/compile.go:53-65 | runs `go get -d ./...` in the workspace and reports its stderr on failure |
| ProjectsCompile.CompileProject | modules/projects/compile.go:71-114 | the host ends as it began; a seeding failure returns its error; otherwise the outcome after seeding |
| ProjectsCompile.BuildInWorkspace | modules/projects/compile.go:82-112 | fetches dependencies, builds and opens the output in the workspace, returning the outcome after seeding; nothing outside the workspace changes |
| ProjectsCompile.FetchFailureSkipsBuild | modules/projects/compile.go:82-84 | after a failed fetch the outcome does not depend on the compiler, so the build never runs |
| WasmService.SameFileName | modules/wasm/service.go:66-68 | the output path and the route end in the same `<id>.wasm` |
| WasmService.AddTempFile | modules/wasm/service.go:31-40 | a `CreateTemp` then write stores the content under the random name, or reports the failing step |
| WasmService.CreateTempCodeDir | modules/wasm/service.go:21-53 | as written: the seed files sit under their `CreateTemp` names; any failure removes the directory |
| WasmService.TempNamesDiffer | modules/wasm/service.go:31-42 | the two seed names never collide |
| WasmService.AfterBuild | modules/wasm/service.go:80-98 | success iff the build succeeded, returning the route; otherwise the filtered message with fallback |
| WasmService.Compile | modules/wasm/service.go:58-100 | as written: the host ends as it began; the build runs on the `CreateTemp`-named seeds |
| WasmService.BuildAndReport | modules/wasm/service.go:72-98 | runs the build in the workspace and reports `AfterBuild` |
| WasmService.SeedLacksMainGo | modules/wasm/service.go:31 | with a non-empty random suffix, the workspace holds no file named `main.go`, the file the build is told to compile |
| WasmService.CompileIntended | modules/wasm/service.go:58-100 | with literal seed names, the build compiles exactly the given code beside the module text |
| WasmService.IntendedSeedHasMainGo | modules/wasm/service.go:72 | with literal seed names, the file the build names holds the code |
| Text.TrimPrefix | wasm/parse.go:47 | removes the prefix exactly when the text starts with it |
| Text.Split | wasm/compile.go:65 | at least one piece, and no piece contains the separator |
| Text.JoinSplit | wasm/tinygo.go:40-43 | joining the split pieces gives back the text |
| Text.SplitJoin | wasm/compile.go:72-74 | splitting separator-free pieces after joining gives back the pieces |
| Text.SplitWithSeparator | model/file.go:10 | a text containing the separator splits into at least two pieces |
| Text.LastSegmentShape | s3/service.go:119-120 | the last segment is a `/`-free suffix of the key, preceded by `/` when shorter |
| Text.LastSegmentIsLastPiece | s3/service.go:119-120 | the last segment is the last piece of `strings.Split(key, "/")` |
| Text.LastSegmentOfJoin | s3/service.go:73 | the last segment of `dir/name` is `name` for a `/`-free name |
| Text.PathJoin | projects/repo.go:19-31 | joining two non-empty segments puts `/` between them; an empty side gives the other |
| Files.LanguageFromFileName | model/file.go:9-11 | the result contains no `.` |
| Files.ExtensionIsLanguage | modules/model/file.go:14-16 | `base.ext…` gives `ext`, the text between the first and second `.` |
| Files.ProjectFilesToFileViews | model/file.go:18-29 | one view per map entry, with its name, content and language, names pairwise distinct, every entry listed |
| Files.FindContent | model/file.go:73-81 | found iff some view has the name, returning the first such view's content; otherwise `<name> not found` |
| Files.GetFileContent | model/file.go:73-81 | the search loop returns the first match, as `FindContent` |
| Files.LookupAfterViews | model/file.go:18-29 | looking up a file of a map in its views gives the file's content, and `<name> not found` for any other name |
| Files.ViewsToFiles | projects/service.go:179 | every view's name is a key, and every key carries the content of a view with that name |
| Files.ViewsRoundTrip | projects/service.go:176-179 | turning a map's views back into a map gives the map |
| Files.DefaultFileNames | model/file.go:59-71 | the Go set holds `main.go`, `index.html`, `styles.css`, `app.js`; the AssemblyScript set has `main.ts` in place of `main.go` and the same page files; all names have a `.` |
| ProjectModel.IndexOf | model/project.go:24-28 | -1 iff absent; otherwise the first position holding the name |
| ProjectModel.LanguageNamed | model/project.go:23-30 | a valid language; the listed name's index, and `LanguageGo` for any other name |
| ProjectModel.GetProjectLanguage | model/project.go:23-30 | the search with early return gives `LanguageNamed` |
| ProjectModel.String | model/project.go:32-34 | a listed name, for the values 0 and 1 only |
| ProjectModel.LanguageRoundTrip | model/project.go:23-34 | reading a language's name back gives the language, and each listed name survives the opposite trip |
| ProjectModel.KnownLanguages | model/project.go:13-30 | `Go` is 0 and `AssemblyScript` is 1, both ways; any other name gives `LanguageGo` |
| ProjectModel.View | model/project.go:58-67 | copies id, time, name and owner; the language as its name; the share code's text; no files and no wasm path |
| ProjectModel.ViewWithFiles | model/project.go:79-86 | `View` with the files listed as views of the map |
| ProjectModel.ViewWith | model/project.go:69-77 | `ViewWithFiles` with the wasm path set |
| ProjectModel.NewProject | model/project.go:88-102 | the given name, owner, language and id; not shared; no share code |
| ShareCode.AlphabetIsLetters | projects/sharecode.go:5 | the alphabet has 52 characters, all ASCII letters |
| ShareCode.GenerateShareCode | projects/sharecode.go:7-13 | the code has 8 characters, each drawn from the alphabet |
| ShareCode.CodesAreLetters | projects/sharecode.go:5-13 | every share code consists of ASCII letters only |
| ObjectStore.KeyInjective | s3/service.go:72-74 | two names of one directory never share a key |
| ObjectStore.NameOfKey | s3/service.go:118-120 | an upload's key is listed under its directory, and its last segment is the file name |
| ObjectStore.Stored | s3/service.go:229-236 | the objects one upload round adds: `dir/name` for each file not refused, holding its content, and nothing else |
| ObjectStore.StoredAdd | s3/service.go:229-236 | one more file adds its object unless refused |
| ObjectStore.AfterDelete | s3/service.go:196-208 | exactly the keys listed under the directory and not refused are removed; the rest is unchanged |
| ObjectStore.FilesRoundTrip | s3/service.go:88-140 | uploading plain-named files into a directory that held nothing, with no refusals, then reading it gives back exactly the files |
| ObjectStore.ReadBackIsUploaded | s3/service.go:107-128 | each file read back is an uploaded file with its content |
| ObjectStore.UploadedIsReadBack | s3/service.go:107-128 | each uploaded file is read back |
| ObjectStore.Bucket.Upload | s3/service.go:54-83 | stores the content under `dir/name` and returns that key, or the refusal with nothing stored |
| ObjectStore.Bucket.UploadFiles | s3/service.go:222-249 | the bucket gains exactly `Stored`; no error iff no upload was refused, otherwise a refused upload's error |
| ObjectStore.Bucket.GetFile | s3/service.go:161-176 | the object's content, or the download error |
| ObjectStore.Bucket.GetFiles | s3/service.go:88-140 | success iff the listing and every listed download are accepted; a refused listing is the error, otherwise a refused download's; success gives files named by the non-empty last segments of listed keys |
| ObjectStore.Bucket.DeleteDir | s3/service.go:181-220 | a refused listing changes nothing; otherwise every listed, not refused key is deleted, and an error iff some delete was refused |
| ObjectStore.Bucket.GenPresignedURL | s3/service.go:251-266 | the signer's URL for the path, or the refusal |
| ProjectsRepo.SubDir | projects/repo.go:19-31 | `user/id/<leaf>` for non-empty user, id and leaf, under `path.Join(user, id)` |
| ProjectsRepo.SourceAndBuildDirs | projects/repo.go:24-31 | the source directory is `user/id/src`, the build directory `user/id/build`, and no source key equals a build key |
| ProjectsRepo.ProjectDirCoversFiles | projects/repo.go:19-31 | every source and build key lies under the project directory |
| ProjectsRepo.BuildPath | projects/repo.go:231-233 | the presigned path of a build output is the key its upload used |
| ProjectsRepo.Shared | projects/repo.go:274-278 | shared, with the valid code |
| ProjectsRepo.Unshared | projects/repo.go:313-317 | not shared and the code NULL; the rest unchanged |
| ProjectsRepo.SaveError | projects/repo.go:280 | a save under a code another record holds fails with the duplicate-key error |
| ProjectsRepo.FirstSettled | projects/repo.go:279-291 | the index of the first attempt whose error does not mention "duplicate" |
| ProjectsRepo.DuplicateRetries | projects/repo.go:281 | the unique-index violation mentions "duplicate" and so is retried |
| ProjectsRepo.SharedSaveKeepsCodesUnique | projects/repo.go:280 | a successful save keeps share codes unique |
| ProjectsRepo.DefaultFilesFor | projects/repo.go:86-94 | the default set exactly for the two languages; `main.go` iff Go, `main.ts` iff AssemblyScript |
| ProjectsRepo.Repository.CreateProject | projects/repo.go:48-67 | a failed insert stores nothing; otherwise the new record is added under the fresh id |
| ProjectsRepo.Repository.CreateProjectFilesWith | projects/repo.go:70-82 | a missing map gives "invalid project language" with nothing uploaded; otherwise the files are uploaded under `src`, returned iff no upload failed |
| ProjectsRepo.Repository.CreateProjectFiles | projects/repo.go:85-99 | the language's defaults are uploaded and returned even when their upload failed; other languages are refused |
| ProjectsRepo.Repository.GetProjectsByUserID | projects/repo.go:104-118 | the views of exactly the user's records, each once |
| ProjectsRepo.Repository.Owned | projects/repo.go:107 | the user's records, each once, and all of them |
| ProjectsRepo.Repository.Record | projects/repo.go:120-137 | the record iff it exists and the caller owns it; `record not found` for a missing id, `project not found` for another user's |
| ProjectsRepo.Repository.ReadViews | projects/repo.go:154-160 | success iff the listing and every download are accepted and every listed name has a `.`; an error is the listing's, a refused download's, or the panic on a dotless name; success gives the views of the files read |
| ProjectsRepo.Repository.GetProjectByID | projects/repo.go:142-161 | the owner check's error; for the owner, success iff the `src` directory can be read, with the record's view and the files read, otherwise the read's error |
| ProjectsRepo.Repository.DeleteProject | projects/repo.go:166-186 | the owner's record is removed; a non-owner or failing delete removes nothing |
| ProjectsRepo.Repository.DeleteProjectFiles | projects/repo.go:191-199 | deletes everything under `user/id`, sources and build outputs alike |
| ProjectsRepo.Repository.UploadProjectSrcFiles | projects/repo.go:204-215 | the files are uploaded under `src` and returned iff no upload failed |
| ProjectsRepo.Repository.UploadBuildFile | projects/repo.go:217-229 | one object under `build`, or the refusal with nothing stored |
| ProjectsRepo.Repository.GenBuildPresignedURL | projects/repo.go:231-253 | the URL for the build output's key |
| ProjectsRepo.Repository.RenameProject | projects/repo.go:255-271 | the owner's record renamed, nothing else changed |
| ProjectsRepo.Repository.AllowSharing | projects/repo.go:273-294 | retries after every "duplicate" error; the first settled save either shares the record under that code or returns its error and "" with nothing changed; codes stay unique |
| ProjectsRepo.Repository.DisallowSharing | projects/repo.go:309-323 | the record is unshared with a NULL code, or the error with nothing changed |
| ProjectsRepo.Repository.ToggleSharing | projects/repo.go:296-307 | the owner check first; sharing: the first save not retried decides, giving its code and the shared record, or "" with its error and nothing changed; unsharing returns "", with the record unshared or the fault and nothing changed |
| ProjectsRepo.Repository.GetProjectByShareCode | projects/repo.go:326-339 | not found iff no shared record holds the code; otherwise that record's view, with its files iff they can be read, or beside the read's error |
| ProjectsService.MainFile | projects/service.go:74-82 | `main.ts` for AssemblyScript, `main.go` for Go, `unsupported language` for any other name |
| ProjectsService.DefaultFilesHoldMainFile | projects/service.go:74-84 | every language's default files hold the file its builds compile |
| ProjectsService.BuildOf | projects/service.go:74-98 | an unsupported language or a missing main file fails before the compiler runs; success means the compiler accepted the main file's content |
| ProjectsService.DefaultProjectBuildsMain | projects/service.go:74-98 | a project holding its default files compiles its language's default main file |
| ProjectsService.AsWrittenSourcesNotListed | projects/service.go:34 | no key under `user/user/src` is listed under `user/project/src` for a different, equally long project id |
| ProjectsService.AsWrittenProjectHasNoFiles | projects/service.go:34 | as written, reading a new project back finds none of the files create returned |
| ProjectsService.IntendedProjectHasDefaultFiles | projects/repo.go:142-161 | with the files stored under the project's id, reading it back gives exactly its default files |
| ProjectsService.DefaultNamesArePlain | model/file.go:59-71 | default file names are non-empty and free of `/` |
| ProjectsService.Service.CreateProject | projects/service.go:24-40 | as written: an insert error comes before any upload; otherwise the record is added and the defaults are stored under `user/user/src` |
| ProjectsService.Service.CreateProjectIntended | projects/service.go:24-40 | the same, with the defaults stored under `user/id/src` |
| ProjectsService.Service.DeleteProjectByID | projects/service.go:50-62 | the record goes first; a refused or failed record delete leaves the bucket untouched; then the project directory is deleted, and the result is an error iff some delete is refused |
| ProjectsService.Service.CompileProjectWASM | projects/service.go:64-135 | the owner check's error or the error reading the sources leaves the bucket alone; once the sources are read, the outcome is `CompileOutcome` of their views; success stores the build of the main file as `main.wasm` and `main.wat` and returns the URL of `main.wasm` |
| ProjectsService.Service.CompileView | projects/service.go:74-134 | `CompileOutcome`: build errors store nothing; a refused module upload skips the text upload; the first upload error suppresses the URL; otherwise the URL of `main.wasm` or the presign error |
| ProjectsService.Service.ForkProject | projects/service.go:160-186 | an unknown code, unreadable shared files or a failed insert create nothing; once the record is inserted, the fork succeeds iff no upload of a shared file is refused, and a refused one leaves the new record; a fork is `<name> (fork)`, owned by the caller in the shared language, holding the shared project's files stored under the new id |
| ProjectsService.Service.ForkShared | projects/service.go:166-185 | a failed insert creates nothing; otherwise the new record is `<name> (fork)` in the language read from the view, its files are the view's files uploaded under its `src`, and it succeeds iff no upload is refused |
| ProjectsService.Service.CopyForkFiles | projects/service.go:176-185 | the files are uploaded under the new record's `src`; success iff no upload is refused, with the record's view holding exactly those files |

## Left out

- Goroutines and channels are modelled as sequential steps. The model does
  not claim termination or error propagation for them. In the source:
  - `GetFiles` and `DeleteDir` range over and close a nil channel (they hang
    or panic), and `UploadFiles` sends on an unbuffered channel before anyone
    receives;
  - `CompileProjectWASM` races on `err` and `uploadErrs`.

  The model reports the first refused request. For `CompileProjectWASM` it
  runs the module upload before the text upload.
- The Go parser is not modelled: comment and declaration lists are inputs.
  So is the panic on a parse error (wasm/parse.go:72-74).
- Export signatures (parameter and result counts) are not modelled.
- `ListObjects` pagination is not modelled: a listing returns every key
  under the prefix.
- `path.Join` is modelled for already clean, non-empty segments; its `.` and
  `..` cleaning is not.
- The metadata store (gorm) is reduced to a map. A failed write (insert,
  save, update, delete) is an optional message per operation. The lookups
  (`First` in `getProjectRecord`, `deleteProject` and
  `getProjectByShareCode`) fail only by finding no row: a connection error
  on a lookup is not modelled. A missing row is `record not found`.
  Soft delete, `CreatedAt` stamping (an input `now`) and the `uuid` of
  `NewID` (an input `id`) are not modelled beyond that.
- Presigned URLs, MIME type inference and the expiry are not modelled. The
  signer is a function of the key, and an upload's location is its key.
- `UploadFile` is the same step as `Upload` with string content, so the two
  are one member.
- `wasm.Compile(language, code, opts)` and `model.FileViewsToProjectFiles`
  are not part of this model's source. The compiler is a parameter of
  `CompileProjectWASM`. `FileViewsToProjectFiles` is modelled as
  `Files.ViewsToFiles`, where a later view wins.
- `util.CreateTempCodeDir` and the two-argument `createTempCodeDir` of
  wasm/tinygo.go are not part of this model's source either. Both are
  modelled by `Workspace.CreateTempCodeDir`, with the file name as a
  parameter.
- `file_server.CONTROLLER_ROUTE` is a parameter. The `-o ./www/<id>.wasm`
  output path is relative to the workspace, so the module lands inside the
  workspace and is removed with it.
- The delegations of projects/service.go that only forward to the
  repository are modelled by the repository members they call:
  `GetProjectsByUserID`, `GetProjectByID`, `UpdateProjectFiles`,
  `GenProjectWatPresignedURL`, `RenameProject`, `ToggleForkable` and
  `GetSharedProject`.
- Printing to stdout (`fmt.Println`) is not modelled.
- WasmTinyGo.AfterBuild: the `BeforeDelete` hook is given the module's
  content, not the open `*os.File`. The model assumes the hook does not
  read or seek the file. In Go, a hook that reads some bytes shortens what
  `io.ReadAll` returns afterwards (wasm/tinygo.go:53-59).
- TinyGoBackend.AfterBuild: likewise, the hook is assumed not to read or
  seek the open file it gets before `io.ReadAll` (wasm/tinygo/compile.go:63-69).
- ProjectsRepo.Repository.AllowSharing: requires that some attempt settles.
  The source loops for as long as saves clash, so the contract covers only
  runs that end.
- ProjectsRepo.Repository.CreateProject: requires a language in the table.
  Records with other language values, whose `String` would panic, are not
  modelled.
- ProjectsService.Service.CreateProject: the branch for an error from
  `createProjectFiles` cannot be reached for a language in the table. The
  model returns that function's own message there.

## Findings

| source | as written | input that shows it | evidently intended | confidence | as-written member | corrected member |
|---|---|---|---|---|---|---|
| modules/wasm/service.go:31 | the seed files are made with `os.CreateTemp(tmpDir, "main.go")` and `os.CreateTemp(tmpDir, "go.mod")`, which append a random suffix, so the workspace holds `main.go123…` and `go.mod456…`, while the build compiles `main.go` | any compile: `CreateTemp` always generates a non-empty suffix, so `tinygo build … main.go` finds no such file | create `main.go` and `go.mod` under those names, as modules/projects/compile.go does | not executed | WasmService.SeedLacksMainGo | WasmService.CompileIntended |
| projects/service.go:34 | `createProjectFiles(userId, userId, language)` passes the user id as the project id, so the defaults are stored under `user/user/src` | any user `u` creating a project with a different id `p` of the same length (both UUIDs): `getProjectByID(u, p)` lists `u/p/src` and finds none of the files create returned | pass `proj.ID`, storing the files under `user/id/src`, where every read looks | not executed | ProjectsService.AsWrittenProjectHasNoFiles | ProjectsService.CreateProjectIntended |
