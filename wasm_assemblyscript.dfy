/** wasm/assemblyscript.go: the AssemblyScript backend with options. The
    `asc` command line is grown by the text output only when it is asked
    for; a failed run is reported only when it wrote to stderr. */
module WasmAssemblyScript {
  import opened Base
  import opened Workspace
  import opened CompileTypes

  const CodeFile: string := "main.ts"
  const WasmPattern: string := "assemblyscript-*.wasm"
  const WatPattern: string := "assemblyscript-*.wat"

  /** The `asc` arguments: the seed, the module output named by its base
      name, and, only when the text form is asked for, the text output. */
  function AscArgs(wasmName: string, watName: string, genWat: bool): (args: seq<string>)
    ensures |args| == if genWat then 5 else 3
    ensures args[..3] == [CodeFile, "--outFile", wasmName]
    ensures genWat ==> args[3..] == ["--textFile", watName]
  {
    [CodeFile, "--outFile", wasmName] + (if genWat then ["--textFile", watName] else [])
  }

  /** What `compileAssemblyScript` returns after `asc` ran, given what the
      run left in the workspace `built`. */
  function AfterRun(run: ToolRun, built: Dir, wasmName: string, watName: string, opts: CompileOpts): (r: (CompileResult, Option<Error>))
    // success exactly when the run did not fail loudly, the module exists,
    // the hook accepted it and, when asked for, the text output exists
    ensures r.1.None? <==>
      (run.ok || |run.stderr| == 0) && wasmName in built && !Rejects(opts.beforeDelete, built[wasmName])
      && (opts.genWat ==> watName in built)
    ensures r.1.None? ==>
      r.0 == CompileResult(built[wasmName], if opts.genWat then built[watName] else "")
    ensures r.1.Some? ==> r.0 == EmptyResult
    // a failed run is reported only when it wrote to stderr, and then as stderr
    ensures (r.1.Some? && r.1.value.Message?) <==> !run.ok && |run.stderr| > 0
    ensures !run.ok && |run.stderr| > 0 ==> r.1 == Some(Message(run.stderr))
    ensures (run.ok || |run.stderr| == 0) && wasmName !in built ==> r.1 == Some(Failed(OpenFile(wasmName)))
    ensures (run.ok || |run.stderr| == 0) && wasmName in built && Rejects(opts.beforeDelete, built[wasmName]) ==>
      r.1 == Some(HookError(opts.beforeDelete.value(built[wasmName]).value))
    ensures ((run.ok || |run.stderr| == 0) && wasmName in built && !Rejects(opts.beforeDelete, built[wasmName]) &&
             opts.genWat && watName !in built) ==>
      r.1 == Some(Failed(OpenFile(watName)))
    ensures r.0.wat != "" ==> opts.genWat && watName in built && r.0.wat == built[watName]
  {
    if !run.ok && |run.stderr| > 0 then (EmptyResult, Some(Message(run.stderr)))
    else if wasmName !in built then (EmptyResult, Some(Failed(OpenFile(wasmName))))
    else
      var wasm := built[wasmName];
      if Rejects(opts.beforeDelete, wasm) then
        (EmptyResult, Some(HookError(opts.beforeDelete.value(wasm).value)))
      else if !opts.genWat then (CompileResult(wasm, ""), None)
      else if watName !in built then (EmptyResult, Some(Failed(OpenFile(watName))))
      else (CompileResult(wasm, built[watName]), None)
  }

  /** The names `os.CreateTemp` picks for the two outputs. */
  function WasmName(oracle: HostOracle): string
  {
    TempName(WasmPattern, oracle.random(WasmPattern))
  }

  function WatName(oracle: HostOracle): string
  {
    TempName(WatPattern, oracle.random(WatPattern))
  }

  /** The error, if any, of creating the module output and, when asked
      for, the text output in a workspace holding `files`. */
  function OutputsError(files: Dir, opts: CompileOpts, oracle: HostOracle): Option<Error>
  {
    if WasmPattern in oracle.createFails || WasmName(oracle) in files then Some(Failed(CreateFile(WasmPattern)))
    else if opts.genWat && (WatPattern in oracle.createFails || WatName(oracle) in files[WasmName(oracle) := ""]) then
      Some(Failed(CreateFile(WatPattern)))
    else None
  }

  /** The workspace once both outputs exist, empty. */
  function WithOutputs(files: Dir, opts: CompileOpts, oracle: HostOracle): Dir
  {
    if opts.genWat then files[WasmName(oracle) := ""][WatName(oracle) := ""] else files[WasmName(oracle) := ""]
  }

  /** What `compileAssemblyScript` returns once its workspace holds `files`:
      the outputs are created, `asc` runs, and the outputs are read. */
  function InWorkspace(files: Dir, opts: CompileOpts, oracle: HostOracle, asc: Tool): (CompileResult, Option<Error>)
  {
    if OutputsError(files, opts, oracle).Some? then (EmptyResult, OutputsError(files, opts, oracle))
    else
      var ready := WithOutputs(files, opts, oracle);
      var run := asc(Invocation("asc", AscArgs(WasmName(oracle), WatName(oracle), opts.genWat), ready));
      AfterRun(run, ready + run.writes, WasmName(oracle), WatName(oracle), opts)
  }

  /** The whole of `compileAssemblyScript` as a function of the host and the tool. */
  function Outcome(tree: map<string, Dir>, code: string, opts: CompileOpts, oracle: HostOracle, asc: Tool): (CompileResult, Option<Error>)
  {
    if !SeedSucceeds(tree, oracle, [CodeFile]) then (EmptyResult, Some(SeedError(tree, oracle, [CodeFile])))
    else InWorkspace(map[CodeFile := code], opts, oracle, asc)
  }

  /** `compileAssemblyScript`: the outcome above; the temporary outputs and
      the workspace are removed on every path, so the host ends as it began. */
  method CompileAssemblyScript(host: Host, code: string, opts: CompileOpts, oracle: HostOracle, asc: Tool)
    returns (result: CompileResult, err: Option<Error>)
    modifies host
    ensures host.tree == old(host.tree)
    ensures (result, err) == Outcome(old(host.tree), code, opts, oracle, asc)
  {
    var made := CreateTempCodeDir(host, CodeFile, code, oracle);
    if made.Err? {
      return EmptyResult, Some(made.error);
    }
    var dir := made.value;
    assert dir !in old(host.tree) && host.tree - {dir} == old(host.tree);
    result, err := BuildInWorkspace(host, dir, opts, oracle, asc);
    host.RemoveAll(dir);
  }

  /** The steps of `compileAssemblyScript` inside its workspace, up to and
      including the removal of the temporary outputs; nothing outside the
      workspace changes. */
  method BuildInWorkspace(host: Host, dir: string, opts: CompileOpts, oracle: HostOracle, asc: Tool)
    returns (result: CompileResult, err: Option<Error>)
    requires dir in host.tree
    modifies host
    ensures (result, err) == InWorkspace(old(host.tree)[dir], opts, oracle, asc)
    ensures dir in host.tree && host.tree - {dir} == old(host.tree) - {dir}
  {
    result, err := EmptyResult, None;
    var created, command, wasmCreated, watCreated := CreateOutputs(host, dir, opts, oracle);
    if created.Some? {
      err := created;
    } else {
      result, err := RunAndRead(host, dir, command, WasmName(oracle), WatName(oracle), opts, asc);
    }
    RemoveOutputs(host, dir, WasmName(oracle), WatName(oracle), wasmCreated, watCreated);
  }

  /** The deferred removals of the temporary outputs, the text output
      first; only the workspace's entries change. */
  method RemoveOutputs(host: Host, dir: string, wasmName: string, watName: string, wasmCreated: bool, watCreated: bool)
    requires dir in host.tree
    modifies host
    ensures dir in host.tree && host.tree - {dir} == old(host.tree) - {dir}
    ensures host.tree[dir] == old(host.tree)[dir] - (if watCreated then {watName} else {}) - (if wasmCreated then {wasmName} else {})
  {
    if watCreated {
      host.Remove(dir, watName);
    }
    if wasmCreated {
      host.Remove(dir, wasmName);
    }
  }

  /** The temporary outputs of `compileAssemblyScript`, created one after
      the other while the `asc` command line is grown to name them. */
  method CreateOutputs(host: Host, dir: string, opts: CompileOpts, oracle: HostOracle)
    returns (err: Option<Error>, command: seq<string>, wasmCreated: bool, watCreated: bool)
    requires dir in host.tree
    modifies host
    ensures err == OutputsError(old(host.tree)[dir], opts, oracle)
    ensures err.None? ==> host.tree == old(host.tree)[dir := WithOutputs(old(host.tree)[dir], opts, oracle)]
    ensures err.None? ==> command == AscArgs(WasmName(oracle), WatName(oracle), opts.genWat)
    ensures dir in host.tree && host.tree - {dir} == old(host.tree) - {dir}
  {
    command, wasmCreated, watCreated := [], false, false;
    var wasmF := host.CreateTemp(dir, WasmPattern, oracle.random(WasmPattern), WasmPattern in oracle.createFails);
    if wasmF.Err? {
      return Some(wasmF.error), command, wasmCreated, watCreated;
    }
    wasmCreated := true;
    command := [CodeFile, "--outFile", wasmF.value];
    if opts.genWat {
      var watF := host.CreateTemp(dir, WatPattern, oracle.random(WatPattern), WatPattern in oracle.createFails);
      if watF.Err? {
        return Some(watF.error), command, wasmCreated, watCreated;
      }
      watCreated := true;
      command := command + ["--textFile", watF.value];
    }
    err := None;
  }

  /** The part of `compileAssemblyScript` after its temporary files exist:
      run `asc` in the workspace, then read the outputs. The text output is
      read when `GenWat` is set, which is exactly when its file was created. */
  method RunAndRead(host: Host, dir: string, command: seq<string>, wasmName: string, watName: string, opts: CompileOpts, asc: Tool)
    returns (result: CompileResult, err: Option<Error>)
    requires dir in host.tree
    modifies host
    ensures var run := asc(Invocation("asc", command, old(host.tree)[dir]));
      && host.tree == old(host.tree)[dir := old(host.tree)[dir] + run.writes]
      && (result, err) == AfterRun(run, old(host.tree)[dir] + run.writes, wasmName, watName, opts)
  {
    result, err := EmptyResult, None;
    var run := host.Run(asc, "asc", command, dir);
    if !run.ok && |run.stderr| > 0 {
      return result, Some(Message(run.stderr));
    }
    var wasmBytes := host.ReadFile(dir, wasmName);
    match wasmBytes {
      case Err(e) =>
        err := Some(e);
      case Ok(bytes) =>
        var hookErr: Option<string> := None;
        if opts.beforeDelete.Some? {
          hookErr := opts.beforeDelete.value(bytes);
        }
        if hookErr.Some? {
          err := Some(HookError(hookErr.value));
        } else if opts.genWat {
          var watBytes := host.ReadFile(dir, watName);
          match watBytes {
            case Err(e) =>
              err := Some(e);
            case Ok(text) =>
              result := CompileResult(bytes, text);
          }
        } else {
          result := CompileResult(bytes, "");
        }
    }
  }

  /** The text output is requested, by a trailing `--textFile` pair, exactly when `GenWat` is set. */
  lemma TextFileOnlyOnRequest(wasmName: string, watName: string, genWat: bool)
    ensures (|AscArgs(wasmName, watName, genWat)| > 3 && AscArgs(wasmName, watName, genWat)[3] == "--textFile") <==> genWat
  {
  }

  /** A run that fails silently is treated like a successful one. */
  lemma SilentFailureIgnored(run: ToolRun, built: Dir, wasmName: string, watName: string, opts: CompileOpts)
    requires |run.stderr| == 0
    ensures AfterRun(run, built, wasmName, watName, opts) == AfterRun(run.(ok := true), built, wasmName, watName, opts)
  {
  }
}
