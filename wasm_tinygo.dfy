/** wasm/tinygo.go: the TinyGo backend with options. Its build error is the
    whole of stderr, unfiltered; a `BeforeDelete` hook sees the module before
    it is read; the text form is produced only on request. */
module WasmTinyGo {
  import opened Base
  import opened Workspace
  import opened CompileTypes
  import Text

  const SeedName: string := "main.go"
  const OutName: string := "main.wasm"
  const BuildArgs: seq<string> := ["build", "-o", OutName, "-target", "wasm", SeedName]

  /** What `compileTinyGo` returns once its workspace holds `main.go`, given
      how the build went and what the build left in the workspace. */
  function AfterBuild(build: ToolRun, built: Dir, opts: CompileOpts, wasm2wat: Disassembler): (r: (CompileResult, Option<Error>))
    // the compile succeeds exactly when the build ran, left the module, the
    // hook accepted it and, when the text form is asked for, it converts
    ensures r.1.None? <==>
      build.ok && OutName in built && !Rejects(opts.beforeDelete, built[OutName])
      && (opts.genWat ==> wasm2wat(built[OutName]).Some?)
    ensures r.1.None? ==>
      r.0 == CompileResult(built[OutName], if opts.genWat then wasm2wat(built[OutName]).value else "")
    // a failed build: the empty result and stderr, unfiltered
    ensures !build.ok ==> r == (EmptyResult, Some(Message(build.stderr)))
    ensures build.ok && OutName !in built ==> r == (EmptyResult, Some(Failed(OpenFile(OutName))))
    // a hook error aborts before anything is read into the result
    ensures build.ok && OutName in built && Rejects(opts.beforeDelete, built[OutName]) ==>
      r == (EmptyResult, Some(HookError(opts.beforeDelete.value(built[OutName]).value)))
    // a failed conversion fails the compile, with the module already in the result
    ensures (build.ok && OutName in built && !Rejects(opts.beforeDelete, built[OutName]) &&
             opts.genWat && wasm2wat(built[OutName]).None?) ==>
      r == (CompileResult(built[OutName], ""), Some(Failed(Wasm2Wat)))
    ensures r.0.wat != "" ==> opts.genWat && r.1.None?
  {
    if !build.ok then (EmptyResult, Some(Message(build.stderr)))
    else if OutName !in built then (EmptyResult, Some(Failed(OpenFile(OutName))))
    else
      var bytes := built[OutName];
      if Rejects(opts.beforeDelete, bytes) then
        (EmptyResult, Some(HookError(opts.beforeDelete.value(bytes).value)))
      else if !opts.genWat then (CompileResult(bytes, ""), None)
      else if wasm2wat(bytes).None? then (CompileResult(bytes, ""), Some(Failed(Wasm2Wat)))
      else (CompileResult(bytes, wasm2wat(bytes).value), None)
  }

  /** `compileTinyGo`: releases its workspace on every path; a failed
      workspace gives the empty result and the setup error; everything after
      is `AfterBuild` of the build that ran on `main.go` alone. */
  method CompileTinyGo(host: Host, code: string, opts: CompileOpts, oracle: HostOracle, tinygo: Tool, wasm2wat: Disassembler)
    returns (result: CompileResult, err: Option<Error>)
    modifies host
    ensures host.tree == old(host.tree)
    ensures !SeedSucceeds(old(host.tree), oracle, [SeedName]) ==>
      result == EmptyResult && err == Some(SeedError(old(host.tree), oracle, [SeedName]))
    ensures SeedSucceeds(old(host.tree), oracle, [SeedName]) ==>
      var build := tinygo(Invocation("tinygo", BuildArgs, map[SeedName := code]));
      (result, err) == AfterBuild(build, map[SeedName := code] + build.writes, opts, wasm2wat)
  {
    result := EmptyResult;
    var made := CreateTempCodeDir(host, SeedName, code, oracle);
    if made.Err? {
      return result, Some(made.error);
    }
    var dir := made.value;
    var build := host.Run(tinygo, "tinygo", BuildArgs, dir);
    if !build.ok {
      var errs := Text.Split(build.stderr, '\n');
      Text.JoinSplit(build.stderr, '\n');
      err := Some(Message(Text.Join(errs, '\n')));
    } else {
      var f := host.ReadFile(dir, OutName);
      if f.Err? {
        err := Some(f.error);
      } else {
        var hookErr: Option<string> := None;
        if opts.beforeDelete.Some? {
          hookErr := opts.beforeDelete.value(f.value);
        }
        if hookErr.Some? {
          err := Some(HookError(hookErr.value));
        } else {
          var wasmBytes := f.value;
          result := result.(wasm := wasmBytes);
          err := None;
          if opts.genWat {
            var wat := wasm2wat(wasmBytes);
            if wat.None? {
              err := Some(Failed(Wasm2Wat));
            } else {
              result := result.(wat := wat.value);
            }
          }
        }
      }
    }
    host.RemoveAll(dir);
  }

  /** A failed build reports stderr exactly as the tool wrote it, with the empty result. */
  lemma BuildFailureIsStderr(build: ToolRun, built: Dir, opts: CompileOpts, wasm2wat: Disassembler)
    requires !build.ok
    ensures AfterBuild(build, built, opts, wasm2wat) == (EmptyResult, Some(Message(build.stderr)))
    ensures Text.Join(Text.Split(build.stderr, '\n'), '\n') == build.stderr
  {
    Text.JoinSplit(build.stderr, '\n');
  }
}
