/** modules/projects/compile.go: the two-file TinyGo build. The workspace
    holds the code and a `go.mod`; dependencies are fetched before the build;
    a failed build reports the stderr lines naming `main.go`, or all of
    stderr when none does. */
module ProjectsCompile {
  import opened Base
  import opened Workspace
  import opened Diagnostics

  const CodeName: string := "main.go"
  const ModName: string := "go.mod"
  const OutName: string := "main.wasm"

  /** `go get -d ./...`, run in the workspace. */
  const GetArgs: seq<string> := ["get", "-d", "./..."]
  const BuildArgs: seq<string> := ["build", "-o", OutName, "-target", "wasm", CodeName]

  /** The seeded workspace: exactly the code and the module file. */
  function Seeded(code: string, goMod: string): (files: Dir)
    ensures files.Keys == {CodeName, ModName}
    ensures files[CodeName] == code && files[ModName] == goMod
  {
    map[CodeName := code, ModName := goMod]
  }

  /** `createTempCodeDir(code, goMod)`: a fresh directory holding `main.go`
      and `go.mod`; on any failure the directory is removed again and no
      path is returned, so the host is as before. */
  method CreateTempCodeDir(host: Host, code: string, goMod: string, oracle: HostOracle) returns (r: Result<string>)
    modifies host
    ensures SeedSucceeds(old(host.tree), oracle, [CodeName, ModName]) ==>
      r == Ok(oracle.tmpDir) && host.tree == old(host.tree)[oracle.tmpDir := Seeded(code, goMod)]
    ensures !SeedSucceeds(old(host.tree), oracle, [CodeName, ModName]) ==>
      r == Err(SeedError(old(host.tree), oracle, [CodeName, ModName])) && host.tree == old(host.tree)
  {
    SeedTwoFiles(old(host.tree), oracle, CodeName, ModName);
    assert [CodeName][0] == CodeName && [CodeName][1..] == [];
    var made := host.MkdirTemp(oracle.tmpDir, oracle.mkdirFails);
    if made.Err? {
      return made;
    }
    var dir := made.value;
    var err := AddFile(host, dir, CodeName, code, oracle);
    if err.Some? {
      host.RemoveAll(dir);
      return Err(err.value);
    }
    err := AddFile(host, dir, ModName, goMod, oracle);
    if err.Some? {
      host.RemoveAll(dir);
      return Err(err.value);
    }
    assert host.tree[dir] == Seeded(code, goMod);
    r := Ok(dir);
  }

  /** What `compileProject` returns once the workspace is seeded: the
      dependency fetch runs first and its failure stops everything; the
      build then sees whatever the fetch wrote. */
  function AfterSeed(files: Dir, goTool: Tool, tinygo: Tool): (r: Result<string>)
    ensures var deps := goTool(Invocation("go", GetArgs, files));
      var fetched := files + deps.writes;
      var build := tinygo(Invocation("tinygo", BuildArgs, fetched));
      var built := fetched + build.writes;
      // a failed fetch stops everything with its stderr
      && (!deps.ok ==> r == Err(Message(deps.stderr)))
      // a failed build: the `main.go` lines, or all of stderr when none names it
      && (deps.ok && !build.ok ==> r == Err(Message(MessageWithFallback(build.stderr, CodeName))))
      // a successful build: the module it wrote, or the error of opening it
      && (deps.ok && build.ok ==> r == if OutName in built then Ok(built[OutName]) else Err(Failed(OpenFile(OutName))))
    ensures r.Ok? ==> goTool(Invocation("go", GetArgs, files)).ok
  {
    var deps := goTool(Invocation("go", GetArgs, files));
    if !deps.ok then Err(Message(deps.stderr))
    else
      var fetched := files + deps.writes;
      var build := tinygo(Invocation("tinygo", BuildArgs, fetched));
      var built := fetched + build.writes;
      if !build.ok then Err(Message(MessageWithFallback(build.stderr, CodeName)))
      else if OutName in built then Ok(built[OutName])
      else Err(Failed(OpenFile(OutName)))
  }

  /** `installDeps`: a failed fetch becomes an error holding its stderr. */
  method InstallDeps(host: Host, dir: string, goTool: Tool) returns (err: Option<Error>)
    requires dir in host.tree
    modifies host
    ensures var deps := goTool(Invocation("go", GetArgs, old(host.tree)[dir]));
      && host.tree == old(host.tree)[dir := old(host.tree)[dir] + deps.writes]
      && err == if deps.ok then None else Some(Message(deps.stderr))
  {
    var deps := host.Run(goTool, "go", GetArgs, dir);
    if !deps.ok {
      return Some(Message(deps.stderr));
    }
    err := None;
  }

  /** `compileProject`: the contents of `main.wasm` (the reader it opens)
      or an error; the workspace is released on every path. */
  method CompileProject(host: Host, code: string, goMod: string, oracle: HostOracle, goTool: Tool, tinygo: Tool) returns (r: Result<string>)
    modifies host
    ensures host.tree == old(host.tree)
    ensures !SeedSucceeds(old(host.tree), oracle, [CodeName, ModName]) ==> r == Err(SeedError(old(host.tree), oracle, [CodeName, ModName]))
    ensures SeedSucceeds(old(host.tree), oracle, [CodeName, ModName]) ==> r == AfterSeed(Seeded(code, goMod), goTool, tinygo)
  {
    var made := CreateTempCodeDir(host, code, goMod, oracle);
    if made.Err? {
      return made;
    }
    var dir := made.value;
    assert dir !in old(host.tree) && host.tree - {dir} == old(host.tree);
    r := BuildInWorkspace(host, dir, goTool, tinygo);
    host.RemoveAll(dir);
  }

  /** The steps of `compileProject` inside its seeded workspace: fetch,
      build, read the output; nothing outside the workspace changes. */
  method BuildInWorkspace(host: Host, dir: string, goTool: Tool, tinygo: Tool) returns (r: Result<string>)
    requires dir in host.tree
    modifies host
    ensures r == AfterSeed(old(host.tree)[dir], goTool, tinygo)
    ensures dir in host.tree && host.tree - {dir} == old(host.tree) - {dir}
  {
    var err := InstallDeps(host, dir, goTool);
    if err.Some? {
      return Err(err.value);
    }
    var build := host.Run(tinygo, "tinygo", BuildArgs, dir);
    if !build.ok {
      var errs := KeepLines(build.stderr, CodeName);
      if |errs| > 0 {
        r := Err(Message(Text.Join(errs, '\n')));
      } else {
        r := Err(Message(build.stderr));
      }
    } else {
      r := host.ReadFile(dir, OutName);
    }
  }

  /** A failed fetch means the build never runs: the outcome is the same
      whatever the compiler would have done. */
  lemma FetchFailureSkipsBuild(files: Dir, goTool: Tool, tinygo: Tool, other: Tool)
    requires !goTool(Invocation("go", GetArgs, files)).ok
    ensures AfterSeed(files, goTool, tinygo) == AfterSeed(files, goTool, other)
  {
  }
}
