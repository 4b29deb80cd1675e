/** wasm/assemblyscript/compile.go: the AssemblyScript backend without
    options. It always asks `asc` for both outputs, names them by their full
    paths, and has no hook; otherwise it shares the steps of
    wasm/assemblyscript.go. */
module AscBackend {
  import opened Base
  import opened Workspace
  import opened CompileTypes
  import opened WasmAssemblyScript

  /** This backend behaves as the optioned one with `GenWat` set and no hook. */
  const Fixed: CompileOpts := CompileOpts(true, None)

  /** `asc main.ts --outFile <wasm path> --textFile <wat path>`, both paths inside the workspace. */
  function FullPathArgs(dir: string, wasmName: string, watName: string): seq<string>
  {
    [CodeFile, "--outFile", dir + "/" + wasmName, "--textFile", dir + "/" + watName]
  }

  /** What `compileWithOpts` returns once its workspace `dir` holds `files`. */
  function InWorkspace(dir: string, files: Dir, oracle: HostOracle, asc: Tool): (CompileResult, Option<Error>)
  {
    if OutputsError(files, Fixed, oracle).Some? then (EmptyResult, OutputsError(files, Fixed, oracle))
    else
      var ready := WithOutputs(files, Fixed, oracle);
      var run := asc(Invocation("asc", FullPathArgs(dir, WasmName(oracle), WatName(oracle)), ready));
      AfterRun(run, ready + run.writes, WasmName(oracle), WatName(oracle), Fixed)
  }

  /** The whole of `compileWithOpts` as a function of the host and the tool. */
  function Outcome(tree: map<string, Dir>, code: string, oracle: HostOracle, asc: Tool): (CompileResult, Option<Error>)
  {
    if !SeedSucceeds(tree, oracle, [CodeFile]) then (EmptyResult, Some(SeedError(tree, oracle, [CodeFile])))
    else InWorkspace(oracle.tmpDir, map[CodeFile := code], oracle, asc)
  }

  /** `Compile`, that is `compileWithOpts`: the outcome above, with the
      outputs and the workspace removed on every path. */
  method Compile(host: Host, code: string, oracle: HostOracle, asc: Tool) returns (result: CompileResult, err: Option<Error>)
    modifies host
    ensures host.tree == old(host.tree)
    ensures (result, err) == Outcome(old(host.tree), code, oracle, asc)
  {
    var made := CreateTempCodeDir(host, CodeFile, code, oracle);
    if made.Err? {
      return EmptyResult, Some(made.error);
    }
    var dir := made.value;
    assert dir !in old(host.tree) && host.tree - {dir} == old(host.tree);
    result, err := BuildInWorkspace(host, dir, oracle, asc);
    host.RemoveAll(dir);
  }

  /** The steps of `compileWithOpts` inside its workspace, up to and
      including the removal of both outputs. */
  method BuildInWorkspace(host: Host, dir: string, oracle: HostOracle, asc: Tool) returns (result: CompileResult, err: Option<Error>)
    requires dir in host.tree
    modifies host
    ensures (result, err) == InWorkspace(dir, old(host.tree)[dir], oracle, asc)
    ensures dir in host.tree && host.tree - {dir} == old(host.tree) - {dir}
  {
    result, err := EmptyResult, None;
    var created, _, wasmCreated, watCreated := CreateOutputs(host, dir, Fixed, oracle);
    if created.Some? {
      err := created;
    } else {
      var command := [CodeFile, "--outFile", dir + "/" + WasmName(oracle), "--textFile", dir + "/" + WatName(oracle)];
      result, err := RunAndRead(host, dir, command, WasmName(oracle), WatName(oracle), Fixed, asc);
    }
    RemoveOutputs(host, dir, WasmName(oracle), WatName(oracle), wasmCreated, watCreated);
  }

  /** A successful compile carries both outputs exactly as `asc` left them;
      any failure carries the empty result. */
  lemma BothOutputs(tree: map<string, Dir>, code: string, oracle: HostOracle, asc: Tool)
    requires SeedSucceeds(tree, oracle, [CodeFile]) && OutputsError(map[CodeFile := code], Fixed, oracle).None?
    ensures var files := WithOutputs(map[CodeFile := code], Fixed, oracle);
      var run := asc(Invocation("asc", FullPathArgs(oracle.tmpDir, WasmName(oracle), WatName(oracle)), files));
      var built := files + run.writes;
      var r := Outcome(tree, code, oracle, asc);
      && (r.1.None? <==> (run.ok || |run.stderr| == 0) && WasmName(oracle) in built && WatName(oracle) in built)
      && (r.1.None? ==> r.0 == CompileResult(built[WasmName(oracle)], built[WatName(oracle)]))
      && (r.1.Some? ==> r.0 == EmptyResult)
  {
  }
}
