/** The host file system as the compiler backends use it, the external
    tools they run, and the one-file workspace of wasm/compile.go. */
module Workspace {
  import opened Base

  /** The files of one directory: name -> content. */
  type Dir = map<string, string>

  /** One run of an external program: what was run, with which arguments,
      in a working directory holding `files`. */
  datatype Invocation = Invocation(program: string, args: seq<string>, files: Dir)

  /** What a run reports: whether it exited successfully, what it wrote to
      standard error, and the files it wrote into its working directory. */
  datatype ToolRun = ToolRun(ok: bool, stderr: string, writes: Dir)

  /** An external program (tinygo, asc, go, wasm-strip, wasm2wat) seen only through its runs. */
  type Tool = Invocation -> ToolRun

  /** What the operating system decides for one request: the name
      `os.MkdirTemp` picks, whether it fails, which file creations and writes
      fail, and the random part `os.CreateTemp` inserts for each pattern. */
  datatype HostOracle = HostOracle(
    tmpDir: string,
    mkdirFails: bool,
    createFails: set<string>,
    writeFails: set<string>,
    random: string -> string)

  /** The name `os.CreateTemp` gives for `pattern`: the random part replaces
      the last `*`, or is appended when there is none. */
  function TempName(pattern: string, random: string): (name: string)
    ensures '*' !in pattern ==> name == pattern + random
  {
    if '*' in pattern then ReplaceLastStar(pattern, random) else pattern + random
  }

  function ReplaceLastStar(pattern: string, random: string): string
    requires '*' in pattern
  {
    if pattern[|pattern| - 1] == '*' then pattern[..|pattern| - 1] + random
    else
      assert '*' in pattern[..|pattern| - 1] by {
        var i :| 0 <= i < |pattern| && pattern[i] == '*';
        assert pattern[..|pattern| - 1][i] == '*';
      }
      ReplaceLastStar(pattern[..|pattern| - 1], random) + [pattern[|pattern| - 1]]
  }

  /** The local file system: directory path -> its files. */
  class Host {
    var tree: map<string, Dir>

    constructor (tree: map<string, Dir>)
      ensures this.tree == tree
    {
      this.tree := tree;
    }

    /** `os.MkdirTemp`: a fresh empty directory, or an error. */
    method MkdirTemp(candidate: string, fails: bool) returns (r: Result<string>)
      modifies this
      ensures !fails && candidate !in old(tree) ==> r == Ok(candidate) && tree == old(tree)[candidate := map[]]
      ensures fails || candidate in old(tree) ==> r == Err(Failed(MakeDir)) && tree == old(tree)
    {
      if !fails && candidate !in tree {
        tree := tree[candidate := map[]];
        r := Ok(candidate);
      } else {
        r := Err(Failed(MakeDir));
      }
    }

    /** `os.Create`: an empty file (truncating one that exists). */
    method Create(dir: string, name: string, fails: bool) returns (err: Option<Error>)
      requires dir in tree
      modifies this
      ensures err == if fails then Some(Failed(CreateFile(name))) else None
      ensures tree == if fails then old(tree) else old(tree)[dir := old(tree)[dir][name := ""]]
    {
      if fails {
        err := Some(Failed(CreateFile(name)));
      } else {
        tree := tree[dir := tree[dir][name := ""]];
        err := None;
      }
    }

    /** `os.CreateTemp(dir, pattern)`: a new empty file with a random name. */
    method CreateTemp(dir: string, pattern: string, random: string, fails: bool) returns (r: Result<string>)
      requires dir in tree
      modifies this
      ensures var name := TempName(pattern, random);
        if !fails && name !in old(tree)[dir]
        then r == Ok(name) && tree == old(tree)[dir := old(tree)[dir][name := ""]]
        else r == Err(Failed(CreateFile(pattern))) && tree == old(tree)
    {
      var name := TempName(pattern, random);
      if !fails && name !in tree[dir] {
        tree := tree[dir := tree[dir][name := ""]];
        r := Ok(name);
      } else {
        r := Err(Failed(CreateFile(pattern)));
      }
    }

    /** Writing `content` to a file just created. */
    method Write(dir: string, name: string, content: string, fails: bool) returns (err: Option<Error>)
      requires dir in tree
      modifies this
      ensures err == if fails then Some(Failed(WriteFile(name))) else None
      ensures tree == if fails then old(tree) else old(tree)[dir := old(tree)[dir][name := content]]
    {
      if fails {
        err := Some(Failed(WriteFile(name)));
      } else {
        tree := tree[dir := tree[dir][name := content]];
        err := None;
      }
    }

    /** `os.ReadFile` / `os.Open` followed by a full read. */
    method ReadFile(dir: string, name: string) returns (r: Result<string>)
      ensures r == if dir in tree && name in tree[dir] then Ok(tree[dir][name]) else Err(Failed(OpenFile(name)))
    {
      if dir in tree && name in tree[dir] {
        r := Ok(tree[dir][name]);
      } else {
        r := Err(Failed(OpenFile(name)));
      }
    }

    /** `os.Remove` of one file. */
    method Remove(dir: string, name: string)
      modifies this
      ensures tree == if dir in old(tree) then old(tree)[dir := old(tree)[dir] - {name}] else old(tree)
    {
      if dir in tree {
        tree := tree[dir := tree[dir] - {name}];
      }
    }

    /** `os.RemoveAll` of a directory: the release of a workspace. */
    method RemoveAll(dir: string)
      modifies this
      ensures tree == old(tree) - {dir}
    {
      tree := tree - {dir};
    }

    /** `exec.Command(program, args...)` run with `cmd.Dir = dir`. */
    method Run(tool: Tool, program: string, args: seq<string>, dir: string) returns (run: ToolRun)
      requires dir in tree
      modifies this
      ensures run == tool(Invocation(program, args, old(tree)[dir]))
      ensures tree == old(tree)[dir := old(tree)[dir] + run.writes]
    {
      run := tool(Invocation(program, args, tree[dir]));
      tree := tree[dir := tree[dir] + run.writes];
    }
  }

  /** Whether seeding a fresh workspace with the named files succeeds. */
  predicate SeedSucceeds(tree: map<string, Dir>, oracle: HostOracle, names: seq<string>)
  {
    && !oracle.mkdirFails
    && oracle.tmpDir !in tree
    && forall i | 0 <= i < |names| :: names[i] !in oracle.createFails && names[i] !in oracle.writeFails
  }

  /** The error a failed seeding of `names` reports: the first step that failed. */
  function SeedError(tree: map<string, Dir>, oracle: HostOracle, names: seq<string>): Error
  {
    if oracle.mkdirFails || oracle.tmpDir in tree then Failed(MakeDir)
    else FirstFileError(oracle, names)
  }

  function FirstFileError(oracle: HostOracle, names: seq<string>): Error
  {
    if |names| == 0 then Failed(MakeDir)
    else if names[0] in oracle.createFails then Failed(CreateFile(names[0]))
    else if names[0] in oracle.writeFails then Failed(WriteFile(names[0]))
    else FirstFileError(oracle, names[1..])
  }

  /** The error of creating then writing one seed file, if either fails. */
  function FileError(oracle: HostOracle, name: string): Option<Error>
  {
    if name in oracle.createFails then Some(Failed(CreateFile(name)))
    else if name in oracle.writeFails then Some(Failed(WriteFile(name)))
    else None
  }

  /** Seeding two files fails at the first of the steps that fails. */
  lemma SeedTwoFiles(tree: map<string, Dir>, oracle: HostOracle, a: string, b: string)
    ensures SeedSucceeds(tree, oracle, [a, b]) <==>
      SeedSucceeds(tree, oracle, [a]) && FileError(oracle, b).None?
    ensures !SeedSucceeds(tree, oracle, [a, b]) ==>
      SeedError(tree, oracle, [a, b]) ==
        if !SeedSucceeds(tree, oracle, [a]) then SeedError(tree, oracle, [a]) else FileError(oracle, b).value
  {
    var ab := [a, b];
    assert ab[0] == a && ab[1] == b && ab[1..] == [b] && [a][0] == a && [b][0] == b && [b][1..] == [];
    assert SeedSucceeds(tree, oracle, ab) <==>
      SeedSucceeds(tree, oracle, [a]) && b !in oracle.createFails && b !in oracle.writeFails
    by {
      forall i | 0 <= i < 2 ensures ab[i] == a || ab[i] == b {
      }
    }
    assert FirstFileError(oracle, ab) ==
      if a in oracle.createFails then Failed(CreateFile(a))
      else if a in oracle.writeFails then Failed(WriteFile(a))
      else FirstFileError(oracle, [b]);
    assert FirstFileError(oracle, [a]) ==
      if a in oracle.createFails then Failed(CreateFile(a))
      else if a in oracle.writeFails then Failed(WriteFile(a))
      else FirstFileError(oracle, []);
  }

  /** `createInTemp(name)` followed by the write of `content`: the file
      holds the content, or the error of the step that failed is returned
      and only the workspace may have changed. */
  method AddFile(host: Host, dir: string, name: string, content: string, oracle: HostOracle) returns (err: Option<Error>)
    requires dir in host.tree
    modifies host
    ensures err == FileError(oracle, name)
    ensures err.None? ==> host.tree == old(host.tree)[dir := old(host.tree)[dir][name := content]]
    ensures dir in host.tree && host.tree - {dir} == old(host.tree) - {dir}
  {
    err := host.Create(dir, name, name in oracle.createFails);
    if err.Some? {
      return;
    }
    err := host.Write(dir, name, content, name in oracle.writeFails);
    assert old(host.tree)[dir][name := ""][name := content] == old(host.tree)[dir][name := content];
  }

  /** wasm/compile.go:14-38 (`createTempCodeDir`): a fresh directory holding
      exactly one file, `fileName`, with the code. On any failure the
      directory is removed again and no path is returned, so the host is as
      before. The backends that pass the file name call the same routine. */
  method CreateTempCodeDir(host: Host, fileName: string, code: string, oracle: HostOracle) returns (r: Result<string>)
    modifies host
    ensures SeedSucceeds(old(host.tree), oracle, [fileName]) ==>
      r == Ok(oracle.tmpDir) && host.tree == old(host.tree)[oracle.tmpDir := map[fileName := code]]
    ensures !SeedSucceeds(old(host.tree), oracle, [fileName]) ==>
      r == Err(SeedError(old(host.tree), oracle, [fileName])) && host.tree == old(host.tree)
  {
    assert [fileName][0] == fileName && [fileName][1..] == [];
    var made := host.MkdirTemp(oracle.tmpDir, oracle.mkdirFails);
    if made.Err? {
      return made;
    }
    var dir := made.value;
    var err := AddFile(host, dir, fileName, code, oracle);
    if err.Some? {
      host.RemoveAll(dir);
      return Err(err.value);
    }
    assert host.tree[dir] == map[fileName := code];
    r := Ok(dir);
  }
}
