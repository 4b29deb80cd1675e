/** wasm/tinygo/compile.go: the TinyGo backend that returns the module bytes.
    Its build error keeps only the stderr lines naming `main.go`, with no
    fallback; an optional `BeforeDelete` hook runs before the bytes are read. */
module TinyGoBackend {
  import opened Base
  import opened Workspace
  import opened CompileTypes
  import opened Diagnostics

  const SeedName: string := "main.go"
  const OutName: string := "main.wasm"
  const BuildArgs: seq<string> := ["build", "-o", OutName, "-target", "wasm", SeedName]

  /** What `compileWithOpts` returns once its workspace holds `main.go`. */
  function AfterBuild(build: ToolRun, built: Dir, hook: Option<Hook>): (r: Result<string>)
    ensures r.Ok? <==> build.ok && OutName in built && !Rejects(hook, built[OutName])
    ensures r.Ok? ==> r.value == built[OutName]
    // a failed build: only the stderr lines naming `main.go`, with no fallback
    ensures !build.ok ==> r == Err(Message(FilteredMessage(build.stderr, SeedName)))
    ensures build.ok && OutName !in built ==> r == Err(Failed(OpenFile(OutName)))
    // a hook error is returned as is, with no module
    ensures build.ok && OutName in built && Rejects(hook, built[OutName]) ==>
      r == Err(HookError(hook.value(built[OutName]).value))
  {
    if !build.ok then Err(Message(FilteredMessage(build.stderr, SeedName)))
    else if OutName !in built then Err(Failed(OpenFile(OutName)))
    else if Rejects(hook, built[OutName]) then Err(HookError(hook.value(built[OutName]).value))
    else Ok(built[OutName])
  }

  /** The whole of `compileWithOpts` as a function of the host and the tools. */
  function Outcome(tree: map<string, Dir>, code: string, hook: Option<Hook>, oracle: HostOracle, tinygo: Tool): Result<string>
  {
    if !SeedSucceeds(tree, oracle, [SeedName]) then Err(SeedError(tree, oracle, [SeedName]))
    else
      var build := tinygo(Invocation("tinygo", BuildArgs, map[SeedName := code]));
      AfterBuild(build, map[SeedName := code] + build.writes, hook)
  }

  /** `compileWithOpts`: the outcome above, with the workspace released on every path. */
  method CompileWithOpts(host: Host, code: string, hook: Option<Hook>, oracle: HostOracle, tinygo: Tool) returns (r: Result<string>)
    modifies host
    ensures host.tree == old(host.tree)
    ensures r == Outcome(old(host.tree), code, hook, oracle, tinygo)
  {
    var made := CreateTempCodeDir(host, SeedName, code, oracle);
    if made.Err? {
      return made;
    }
    var dir := made.value;
    var build := host.Run(tinygo, "tinygo", BuildArgs, dir);
    if !build.ok {
      var errs := KeepLines(build.stderr, SeedName);
      r := Err(Message(Text.Join(errs, '\n')));
    } else {
      var f := host.ReadFile(dir, OutName);
      if f.Err? {
        r := f;
      } else {
        var hookErr: Option<string> := None;
        if hook.Some? {
          hookErr := hook.value(f.value);
        }
        if hookErr.Some? {
          r := Err(HookError(hookErr.value));
        } else {
          r := Ok(f.value);
        }
      }
    }
    host.RemoveAll(dir);
  }

  /** `Compile`: `compileWithOpts` with the zero options, that is, with no hook. */
  method Compile(host: Host, code: string, oracle: HostOracle, tinygo: Tool) returns (r: Result<string>)
    modifies host
    ensures host.tree == old(host.tree)
    ensures r == Outcome(old(host.tree), code, None, oracle, tinygo)
  {
    r := CompileWithOpts(host, code, None, oracle, tinygo);
  }

  /** A failed build's message holds exactly the stderr lines naming
      `main.go`, in order; when there is none, the message is empty. */
  lemma BuildFailureMessage(tree: map<string, Dir>, code: string, hook: Option<Hook>, oracle: HostOracle, tinygo: Tool)
    requires SeedSucceeds(tree, oracle, [SeedName])
    requires !tinygo(Invocation("tinygo", BuildArgs, map[SeedName := code])).ok
    ensures var stderr := tinygo(Invocation("tinygo", BuildArgs, map[SeedName := code])).stderr;
      && Outcome(tree, code, hook, oracle, tinygo).Err?
      && Outcome(tree, code, hook, oracle, tinygo).error.Message?
      && ((exists l | l in Text.Split(stderr, '\n') :: Text.Contains(l, SeedName)) ==>
            Text.Split(Outcome(tree, code, hook, oracle, tinygo).error.text, '\n') == KeptLines(Text.Split(stderr, '\n'), SeedName))
      && ((forall l | l in Text.Split(stderr, '\n') :: !Text.Contains(l, SeedName)) ==>
            Outcome(tree, code, hook, oracle, tinygo).error.text == "")
  {
    var stderr := tinygo(Invocation("tinygo", BuildArgs, map[SeedName := code])).stderr;
    if exists l | l in Text.Split(stderr, '\n') :: Text.Contains(l, SeedName) {
      FallbackMessageLines(stderr, SeedName);
    } else {
      NoMatchingLine(stderr, SeedName);
    }
  }
}
