/** wasm/compile.go: the one-file TinyGo build that returns the compiled
    module, filters the diagnostics with a fallback, and runs `wasm-strip`
    on the result while ignoring how that went. */
module WasmCompile {
  import opened Base
  import opened Workspace
  import opened Diagnostics

  const SeedName: string := "main.go"
  const OutName: string := "main.wasm"

  /** `tinygo build -o main.wasm -target wasm main.go`, run in the workspace. */
  const BuildArgs: seq<string> := ["build", "-o", OutName, "-target", "wasm", SeedName]

  /** What `Compile` returns once its workspace `dir` holds `files`: a failed
      build reports the stderr lines naming `main.go`, or all of stderr when
      none does; a successful build is stripped and the output file is read. */
  function InWorkspace(dir: string, files: Dir, tinygo: Tool, wasmStrip: Tool): (r: Result<string>)
    ensures !tinygo(Invocation("tinygo", BuildArgs, files)).ok ==>
      r == Err(Message(MessageWithFallback(tinygo(Invocation("tinygo", BuildArgs, files)).stderr, SeedName)))
  {
    var build := tinygo(Invocation("tinygo", BuildArgs, files));
    var built := files + build.writes;
    var stripped := built + wasmStrip(Invocation("wasm-strip", [dir + "/" + OutName], built)).writes;
    if !build.ok then Err(Message(MessageWithFallback(build.stderr, SeedName)))
    else if OutName in stripped then Ok(stripped[OutName])
    else Err(Failed(OpenFile(OutName)))
  }

  /** `Compile`: the workspace holds only `main.go`; the outcome above,
      with the workspace released on every path, so the host ends as it began. */
  method Compile(host: Host, code: string, oracle: HostOracle, tinygo: Tool, wasmStrip: Tool) returns (r: Result<string>)
    modifies host
    ensures host.tree == old(host.tree)
    ensures !SeedSucceeds(old(host.tree), oracle, [SeedName]) ==> r == Err(SeedError(old(host.tree), oracle, [SeedName]))
    ensures SeedSucceeds(old(host.tree), oracle, [SeedName]) ==>
      r == InWorkspace(oracle.tmpDir, map[SeedName := code], tinygo, wasmStrip)
  {
    var made := CreateTempCodeDir(host, SeedName, code, oracle);
    if made.Err? {
      return made;
    }
    var dir := made.value;
    assert dir !in old(host.tree) && host.tree - {dir} == old(host.tree);
    r := BuildInWorkspace(host, dir, tinygo, wasmStrip);
    host.RemoveAll(dir);
  }

  /** The steps of `Compile` inside its workspace; nothing outside it changes. */
  method BuildInWorkspace(host: Host, dir: string, tinygo: Tool, wasmStrip: Tool) returns (r: Result<string>)
    requires dir in host.tree
    modifies host
    ensures r == InWorkspace(dir, old(host.tree)[dir], tinygo, wasmStrip)
    ensures dir in host.tree && host.tree - {dir} == old(host.tree) - {dir}
  {
    var build := host.Run(tinygo, "tinygo", BuildArgs, dir);
    if !build.ok {
      var errs := KeepLines(build.stderr, SeedName);
      if |errs| > 0 {
        r := Err(Message(Text.Join(errs, '\n')));
      } else {
        r := Err(Message(build.stderr));
      }
    } else {
      // the stripper's own result is not looked at
      var _ := host.Run(wasmStrip, "wasm-strip", [dir + "/" + OutName], dir);
      r := host.ReadFile(dir, OutName);
    }
  }

  /** Whether `wasm-strip` succeeds, and what it prints, never changes the
      outcome: only the files it leaves behind are read. */
  lemma StripOutcomeIgnored(dir: string, files: Dir, tinygo: Tool, wasmStrip: Tool, other: Tool)
    requires forall inv: Invocation :: other(inv).writes == wasmStrip(inv).writes
    ensures InWorkspace(dir, files, tinygo, wasmStrip) == InWorkspace(dir, files, tinygo, other)
  {
  }
}
