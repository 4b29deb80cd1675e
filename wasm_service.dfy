/** modules/wasm/service.go: the TinyGo build whose output is written under
    the static directory and returned as a route. Its workspace files are
    made with `os.CreateTemp`, which appends a random suffix to the names. */
module WasmService {
  import opened Base
  import opened Workspace
  import opened Diagnostics
  import ProjectsCompile

  /** `file_server.STATIC_DIR`. */
  const StaticDir: string := "./www"
  const CodePattern: string := "main.go"
  const ModPattern: string := "go.mod"

  /** The output path and the route built from one generated id. */
  function OsPath(id: string): string
  {
    StaticDir + "/" + id + ".wasm"
  }

  function RoutePath(route: string, id: string): string
  {
    route + "/" + id + ".wasm"
  }

  /** The output path and the returned route end in the same file name, `<id>.wasm`. */
  lemma SameFileName(route: string, id: string)
    requires '/' !in id
    ensures Text.LastSegment(OsPath(id)) == Text.LastSegment(RoutePath(route, id)) == id + ".wasm"
  {
    assert '/' !in id + ".wasm" by {
      assert forall i | 0 <= i < |id + ".wasm"| :: (id + ".wasm")[i] != '/' by {
        forall i | 0 <= i < |id + ".wasm"| ensures (id + ".wasm")[i] != '/' {
          if i < |id| {
            assert (id + ".wasm")[i] == id[i];
          }
        }
      }
    }
    assert OsPath(id) == StaticDir + "/" + (id + ".wasm");
    assert RoutePath(route, id) == route + "/" + (id + ".wasm");
    Text.LastSegmentOfJoin(StaticDir, id + ".wasm");
    Text.LastSegmentOfJoin(route, id + ".wasm");
  }

  /** `tinygo build -o <osPath> -target wasm main.go`. */
  function BuildArgs(id: string): seq<string>
  {
    ["build", "-o", OsPath(id), "-target", "wasm", CodePattern]
  }

  /** The names `os.CreateTemp` gives the two seed files: each pattern has
      no `*`, so the random part is appended to it. */
  function CodeTemp(oracle: HostOracle): string
  {
    TempName(CodePattern, oracle.random(CodePattern))
  }

  function ModTemp(oracle: HostOracle): string
  {
    TempName(ModPattern, oracle.random(ModPattern))
  }

  /** The workspace as `createTempCodeDir` leaves it. */
  function TempSeeded(code: string, goMod: string, oracle: HostOracle): Dir
  {
    map[CodeTemp(oracle) := code, ModTemp(oracle) := goMod]
  }

  /** The first failing step of `createTempCodeDir`, if any. */
  function TempSeedError(tree: map<string, Dir>, oracle: HostOracle): Option<Error>
  {
    if oracle.mkdirFails || oracle.tmpDir in tree then Some(Failed(MakeDir))
    else if CodePattern in oracle.createFails then Some(Failed(CreateFile(CodePattern)))
    else if CodePattern in oracle.writeFails then Some(Failed(WriteFile(CodeTemp(oracle))))
    else if ModPattern in oracle.createFails then Some(Failed(CreateFile(ModPattern)))
    else if ModPattern in oracle.writeFails then Some(Failed(WriteFile(ModTemp(oracle))))
    else None
  }

  /** `os.CreateTemp(dir, pattern)` followed by the write of `content`. */
  method AddTempFile(host: Host, dir: string, pattern: string, content: string, oracle: HostOracle) returns (err: Option<Error>)
    requires dir in host.tree
    requires TempName(pattern, oracle.random(pattern)) !in host.tree[dir]
    modifies host
    ensures var name := TempName(pattern, oracle.random(pattern));
      && err == (if pattern in oracle.createFails then Some(Failed(CreateFile(pattern)))
                 else if pattern in oracle.writeFails then Some(Failed(WriteFile(name)))
                 else None)
      && (err.None? ==> host.tree == old(host.tree)[dir := old(host.tree)[dir][name := content]])
    ensures dir in host.tree && host.tree - {dir} == old(host.tree) - {dir}
  {
    var f := host.CreateTemp(dir, pattern, oracle.random(pattern), pattern in oracle.createFails);
    if f.Err? {
      return Some(f.error);
    }
    err := host.Write(dir, f.value, content, pattern in oracle.writeFails);
    assert old(host.tree)[dir][f.value := ""][f.value := content] == old(host.tree)[dir][f.value := content];
  }

  /** `createTempCodeDir(code, goMod)` as written: a fresh directory holding
      the code and the module text under their `CreateTemp` names; on any
      failure the directory is removed again and no path is returned. */
  method CreateTempCodeDir(host: Host, code: string, goMod: string, oracle: HostOracle) returns (r: Result<string>)
    modifies host
    ensures TempSeedError(old(host.tree), oracle).None? ==>
      r == Ok(oracle.tmpDir) && host.tree == old(host.tree)[oracle.tmpDir := TempSeeded(code, goMod, oracle)]
    ensures TempSeedError(old(host.tree), oracle).Some? ==>
      r == Err(TempSeedError(old(host.tree), oracle).value) && host.tree == old(host.tree)
  {
    var made := host.MkdirTemp(oracle.tmpDir, oracle.mkdirFails);
    if made.Err? {
      return made;
    }
    var dir := made.value;
    var err := AddTempFile(host, dir, CodePattern, code, oracle);
    if err.Some? {
      host.RemoveAll(dir);
      return Err(err.value);
    }
    TempNamesDiffer(oracle);
    err := AddTempFile(host, dir, ModPattern, goMod, oracle);
    if err.Some? {
      host.RemoveAll(dir);
      return Err(err.value);
    }
    assert host.tree[dir] == TempSeeded(code, goMod, oracle);
    r := Ok(dir);
  }

  /** The two seed names never collide: they start differently. */
  lemma TempNamesDiffer(oracle: HostOracle)
    ensures CodeTemp(oracle) != ModTemp(oracle)
  {
    assert CodeTemp(oracle)[0] == 'm' && ModTemp(oracle)[0] == 'g';
  }

  /** What `Compile` returns once the build has run. */
  function AfterBuild(build: ToolRun, route: string, id: string): (r: Result<string>)
    ensures r.Ok? <==> build.ok
    ensures r.Ok? ==> r.value == RoutePath(route, id)
    ensures r.Err? ==> r.error == Message(MessageWithFallback(build.stderr, CodePattern))
  {
    if !build.ok then Err(Message(MessageWithFallback(build.stderr, CodePattern))) else Ok(RoutePath(route, id))
  }

  /** `Compile` as written: the build runs on the `CreateTemp`-named seed
      files, writing to the static path, and the route is returned on
      success. The workspace is released on every path. */
  method Compile(host: Host, code: string, goMod: string, id: string, route: string, oracle: HostOracle, tinygo: Tool)
    returns (r: Result<string>)
    modifies host
    ensures host.tree == old(host.tree)
    ensures TempSeedError(old(host.tree), oracle).Some? ==> r == Err(TempSeedError(old(host.tree), oracle).value)
    ensures TempSeedError(old(host.tree), oracle).None? ==>
      r == AfterBuild(tinygo(Invocation("tinygo", BuildArgs(id), TempSeeded(code, goMod, oracle))), route, id)
  {
    var made := CreateTempCodeDir(host, code, goMod, oracle);
    if made.Err? {
      return made;
    }
    var dir := made.value;
    r := BuildAndReport(host, dir, id, route, tinygo);
    host.RemoveAll(dir);
  }

  /** The build and the report shared by both seedings. */
  method BuildAndReport(host: Host, dir: string, id: string, route: string, tinygo: Tool) returns (r: Result<string>)
    requires dir in host.tree
    modifies host
    ensures var build := tinygo(Invocation("tinygo", BuildArgs(id), old(host.tree)[dir]));
      && host.tree == old(host.tree)[dir := old(host.tree)[dir] + build.writes]
      && r == AfterBuild(build, route, id)
  {
    var build := host.Run(tinygo, "tinygo", BuildArgs(id), dir);
    if !build.ok {
      var errs := KeepLines(build.stderr, CodePattern);
      if |errs| > 0 {
        return Err(Message(Text.Join(errs, '\n')));
      }
      return Err(Message(build.stderr));
    }
    r := Ok(RoutePath(route, id));
  }

  /** As written, the build is told to compile `main.go`, but whenever the
      random suffix is non-empty (as `os.CreateTemp` always makes it) no
      file of that name is in the workspace. */
  lemma SeedLacksMainGo(code: string, goMod: string, id: string, oracle: HostOracle)
    requires oracle.random(CodePattern) != ""
    ensures BuildArgs(id)[5] !in TempSeeded(code, goMod, oracle)
  {
    assert |CodeTemp(oracle)| > |CodePattern|;
    assert ModTemp(oracle)[0] != CodePattern[0];
  }

  /** `Compile` with the seed files created under their literal names, as
      modules/projects/compile.go does: the build then compiles exactly the
      given code, with the given module text beside it. */
  method CompileIntended(host: Host, code: string, goMod: string, id: string, route: string, oracle: HostOracle, tinygo: Tool)
    returns (r: Result<string>)
    modifies host
    ensures host.tree == old(host.tree)
    ensures !SeedSucceeds(old(host.tree), oracle, [CodePattern, ModPattern]) ==>
      r == Err(SeedError(old(host.tree), oracle, [CodePattern, ModPattern]))
    ensures SeedSucceeds(old(host.tree), oracle, [CodePattern, ModPattern]) ==>
      r == AfterBuild(tinygo(Invocation("tinygo", BuildArgs(id), ProjectsCompile.Seeded(code, goMod))), route, id)
  {
    var made := ProjectsCompile.CreateTempCodeDir(host, code, goMod, oracle);
    if made.Err? {
      return made;
    }
    var dir := made.value;
    r := BuildAndReport(host, dir, id, route, tinygo);
    host.RemoveAll(dir);
  }

  /** With the intended seeding, the file the build names holds the code. */
  lemma IntendedSeedHasMainGo(code: string, goMod: string, id: string)
    ensures BuildArgs(id)[5] in ProjectsCompile.Seeded(code, goMod)
    ensures ProjectsCompile.Seeded(code, goMod)[BuildArgs(id)[5]] == code
  {
  }
}
