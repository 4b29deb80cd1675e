/** projects/service.go: the project operations the HTTP layer calls, each
    a sequence of repository steps: create (record, then files), delete
    (record, then files), compile (main file, compiler, uploads, URL) and
    fork (shared project, new record, copied files). */
module ProjectsService {
  import opened Base
  import opened Text
  import opened Files
  import opened ProjectModel
  import opened ObjectStore
  import opened ProjectsRepo
  import opened CompileTypes

  /** `wasm.Compile(language, code, opts)`: the compiler dispatcher, seen
      only through its result. */
  type Compiler = (int, string, CompileOpts) -> (CompileResult, Option<Error>)

  /** The options every project build uses: text form requested, no hook. */
  const WatOpts: CompileOpts := CompileOpts(true, None)

  const Unsupported: string := "unsupported language"

  /** The file compiled for a project, chosen by its language name. */
  function MainFile(language: string): (r: Result<string>)
    ensures r.Ok? <==> language in Langs
    ensures language == String(LanguageGo) ==> r == Ok("main.go")
    ensures language == String(LanguageAssemblyScript) ==> r == Ok("main.ts")
    ensures r.Err? ==> r.error == Message(Unsupported)
  {
    KnownLanguages(language);
    if language == String(LanguageAssemblyScript) then Ok("main.ts")
    else if language == String(LanguageGo) then Ok("main.go")
    else Err(Message(Unsupported))
  }

  /** Every language's default files hold the file its builds compile. */
  lemma DefaultFilesHoldMainFile(l: int)
    requires ValidLanguage(l)
    ensures MainFile(String(l)).Ok? && MainFile(String(l)).value in DefaultFilesFor(l).value
  {
    KnownLanguages("");
  }

  /** The build step of `CompileProjectWASM` for a project's view: the main
      file is chosen and looked up, and only then is the compiler run, on
      that file's content, for the language read back from its name. */
  function BuildOf(language: string, files: seq<FileView>, compile: Compiler): (r: Result<CompileResult>)
    ensures MainFile(language).Err? ==> r == Err(Message(Unsupported))
    ensures MainFile(language).Ok? && FindContent(files, MainFile(language).value).Err? ==>
      r == Err(Message(MainFile(language).value + " not found"))
    ensures r.Ok? ==>
      MainFile(language).Ok? && FindContent(files, MainFile(language).value).Ok?
      && compile(LanguageNamed(language), FindContent(files, MainFile(language).value).value, WatOpts).1.None?
  {
    match MainFile(language)
    case Err(e) => Err(e)
    case Ok(name) =>
      match FindContent(files, name)
      case Err(e) => Err(e)
      case Ok(code) =>
        var built := compile(LanguageNamed(language), code, WatOpts);
        if built.1.Some? then Err(built.1.value) else Ok(built.0)
  }

  /** A project still holding its default files compiles the default main
      file of its own language. */
  lemma DefaultProjectBuildsMain(l: int, views: seq<FileView>, compile: Compiler)
    requires ValidLanguage(l) && IsViewsOf(DefaultFilesFor(l).value, views)
    ensures var main := MainFile(String(l)).value;
      var built := compile(l, DefaultFilesFor(l).value[main], WatOpts);
      BuildOf(String(l), views, compile) == if built.1.Some? then Err(built.1.value) else Ok(built.0)
  {
    DefaultFilesHoldMainFile(l);
    LanguageRoundTrip(l, "");
    LookupAfterViews(DefaultFilesFor(l).value, views, MainFile(String(l)).value);
  }

  /** As written, `CreateProject` stores the files under
      `<user>/<user>/src`. For a project id other than the user id, of the
      same length (both are UUIDs), no such key is listed under the
      project's own source directory. */
  lemma AsWrittenSourcesNotListed(userId: string, projectId: string, name: string)
    requires userId != "" && |projectId| == |userId| && projectId != userId
    ensures !HasPrefix(Key(SrcDir(userId, userId), name), SrcDir(userId, projectId))
  {
    var a := Key(SrcDir(userId, userId), name);
    var d := SrcDir(userId, projectId);
    var n := |userId|;
    var own := userId + "/" + userId + "/src";
    assert a == own + "/" + name;
    assert a[..|d|] == own;
    assert own[n + 1..2 * n + 1] == userId;
    assert d[n + 1..2 * n + 1] == projectId;
  }

  /** Hence, as written, reading the new project back finds none of the
      files `CreateProject` returned. */
  lemma AsWrittenProjectHasNoFiles(objects: map<string, string>, userId: string, projectId: string,
                                   files: ProjectFiles, fails: set<string>, got: ProjectFiles)
    requires userId != "" && |projectId| == |userId| && projectId != userId
    requires forall k | k in objects :: !HasPrefix(k, SrcDir(userId, projectId))
    requires IsFilesOf(objects + Stored(SrcDir(userId, userId), files, fails), SrcDir(userId, projectId), got)
    ensures got == map[]
  {
    var all := objects + Stored(SrcDir(userId, userId), files, fails);
    forall k | k in all ensures !HasPrefix(k, SrcDir(userId, projectId)) {
      if k !in objects {
        var n :| n in files && Key(SrcDir(userId, userId), n) !in fails && k == Key(SrcDir(userId, userId), n);
        AsWrittenSourcesNotListed(userId, projectId, n);
      }
    }
    assert Listed(all, SrcDir(userId, projectId)) == {};
    assert got.Keys == {};
  }

  /** With the files stored under the project's own id, reading the new
      project back gives exactly its default files. */
  lemma IntendedProjectHasDefaultFiles(objects: map<string, string>, userId: string, projectId: string, l: int,
                                       fails: set<string>, got: ProjectFiles)
    requires ValidLanguage(l)
    requires forall k | k in objects :: !HasPrefix(k, SrcDir(userId, projectId))
    requires forall n | n in DefaultFilesFor(l).value :: Key(SrcDir(userId, projectId), n) !in fails
    requires IsFilesOf(objects + Stored(SrcDir(userId, projectId), DefaultFilesFor(l).value, fails), SrcDir(userId, projectId), got)
    ensures got == DefaultFilesFor(l).value
  {
    DefaultNamesArePlain(l);
    FilesRoundTrip(objects, SrcDir(userId, projectId), DefaultFilesFor(l).value, fails, got);
  }

  /** Default file names are plain names: non-empty, with no `/`. */
  lemma DefaultNamesArePlain(l: int)
    requires ValidLanguage(l)
    ensures forall n | n in DefaultFilesFor(l).value :: n != "" && '/' !in n
  {
    DefaultFileNames();
    assert '/' !in "main.go" && '/' !in "main.ts" && '/' !in "index.html" && '/' !in "styles.css" && '/' !in "app.js";
    forall n | n in DefaultFilesFor(l).value ensures n != "" && '/' !in n {
      assert n in {"main.go", "index.html", "styles.css", "app.js", "main.ts"};
    }
  }

  /** `after` is `before` with the module and the text form built from
      `views` stored under the project's build directory. */
  predicate StoresBuild(before: map<string, string>, after: map<string, string>, userId: string, projectId: string,
                        language: string, views: seq<FileView>, compile: Compiler)
  {
    var built := BuildOf(language, views, compile);
    built.Ok? && after ==
      before[Key(WasmDir(userId, projectId), "main.wasm") := built.value.wasm]
            [Key(WasmDir(userId, projectId), "main.wat") := built.value.wat]
  }

  /** What the compile step of `CompileProjectWASM` does to the bucket
      (`before` to `after`) and returns, for a project of `language` with
      file views `views`: the build's error; or the module's upload error;
      or the text form's upload error with the module stored; or, both
      stored, the presigned URL of the module or the error presigning it. */
  predicate CompileOutcome(before: map<string, string>, after: map<string, string>, faults: Faults, sign: string -> string,
                           userId: string, projectId: string, language: string, views: seq<FileView>, compile: Compiler,
                           r: Result<string>)
  {
    var built := BuildOf(language, views, compile);
    var wasmKey := Key(WasmDir(userId, projectId), "main.wasm");
    var watKey := Key(WasmDir(userId, projectId), "main.wat");
    && (built.Err? ==> r == Err(built.error) && after == before)
    && (built.Ok? && wasmKey in faults.upload ==>
          r == Err(Failed(Op.Upload(wasmKey))) && after == before)
    && (built.Ok? && wasmKey !in faults.upload && watKey in faults.upload ==>
          r == Err(Failed(Op.Upload(watKey))) && after == before[wasmKey := built.value.wasm])
    && (built.Ok? && wasmKey !in faults.upload && watKey !in faults.upload ==>
          after == before[wasmKey := built.value.wasm][watKey := built.value.wat]
          && (wasmKey in faults.presign ==> r == Err(Failed(Presign(wasmKey))))
          && (wasmKey !in faults.presign ==> r == Ok(sign(wasmKey))))
  }

  /** `Service`: the operations over one repository. */
  class Service {
    const repo: Repository

    constructor (repo: Repository)
      ensures this.repo == repo
    {
      this.repo := repo;
    }

    /** `CreateProject` as written: a failed insert returns its error before
        any file is made; otherwise the default files are uploaded (their
        upload error dropped) under `SrcDir(userId, userId)`, the user id
        standing where the project id belongs. */
    method CreateProject(name: string, userId: string, language: int, id: string, now: int, fault: Option<string>)
      returns (r: Result<ProjectView>)
      requires repo.Valid() && ValidLanguage(language)
      modifies repo, repo.store
      ensures repo.Valid()
      ensures fault.Some? || id in old(repo.db) ==>
        r.Err? && repo.db == old(repo.db) && repo.store.objects == old(repo.store.objects)
      ensures fault.None? && id !in old(repo.db) ==>
        var p := NewProject(name, userId, language, id).(createdAt := now);
        var files := DefaultFilesFor(language).value;
        && repo.db == old(repo.db)[id := p]
        && repo.store.objects == old(repo.store.objects) + Stored(SrcDir(userId, userId), files, repo.store.faults.upload)
        && r.Ok? && r.value == View(p).(files := r.value.files) && IsViewsOf(files, r.value.files)
    {
      var proj := repo.CreateProject(name, userId, language, id, now, fault);
      if proj.Err? {
        return Err(proj.error);
      }
      var files := repo.CreateProjectFiles(userId, userId, language);
      if files.Err? {
        // an unknown language, which the record's language is not
        return Err(Message(InvalidLanguage));
      }
      var v := ViewWithFiles(proj.value, files.value);
      r := Ok(v);
    }

    /** `CreateProject` with the files stored under the new project's id,
        where `getProjectByID` reads them. */
    method CreateProjectIntended(name: string, userId: string, language: int, id: string, now: int, fault: Option<string>)
      returns (r: Result<ProjectView>)
      requires repo.Valid() && ValidLanguage(language)
      modifies repo, repo.store
      ensures repo.Valid()
      ensures fault.Some? || id in old(repo.db) ==>
        r.Err? && repo.db == old(repo.db) && repo.store.objects == old(repo.store.objects)
      ensures fault.None? && id !in old(repo.db) ==>
        var p := NewProject(name, userId, language, id).(createdAt := now);
        var files := DefaultFilesFor(language).value;
        && repo.db == old(repo.db)[id := p]
        && repo.store.objects == old(repo.store.objects) + Stored(SrcDir(userId, id), files, repo.store.faults.upload)
        && r.Ok? && r.value == View(p).(files := r.value.files) && IsViewsOf(files, r.value.files)
    {
      var proj := repo.CreateProject(name, userId, language, id, now, fault);
      if proj.Err? {
        return Err(proj.error);
      }
      var files := repo.CreateProjectFiles(userId, proj.value.id, language);
      if files.Err? {
        // an unknown language, which the record's language is not
        return Err(Message(InvalidLanguage));
      }
      var v := ViewWithFiles(proj.value, files.value);
      r := Ok(v);
    }

    /** `DeleteProjectByID`: the record goes first; the files are deleted
        only once that succeeded, so a refused or failed record delete
        leaves the bucket untouched. */
    method DeleteProjectByID(userId: string, id: string, fault: Option<string>) returns (err: Option<Error>)
      requires repo.Valid()
      modifies repo, repo.store
      ensures repo.Valid()
      ensures old(repo.Record(userId, id)).Err? ==>
        err == Some(old(repo.Record(userId, id)).error) && repo.db == old(repo.db) && repo.store.objects == old(repo.store.objects)
      ensures old(repo.Record(userId, id)).Ok? && fault.Some? ==>
        err == Some(Database(fault.value)) && repo.db == old(repo.db) && repo.store.objects == old(repo.store.objects)
      ensures old(repo.Record(userId, id)).Ok? && fault.None? ==> repo.db == old(repo.db) - {id}
      ensures old(repo.Record(userId, id)).Ok? && fault.None? && ProjectDir(userId, id) !in repo.store.faults.list ==>
        repo.store.objects == AfterDelete(old(repo.store.objects), ProjectDir(userId, id), repo.store.faults.delete)
      // once the record is gone, the bucket's error is the result
      ensures old(repo.Record(userId, id)).Ok? && fault.None? && ProjectDir(userId, id) !in repo.store.faults.list ==>
        (err.None? <==> forall k | k in old(repo.store.objects) && HasPrefix(k, ProjectDir(userId, id)) :: k !in repo.store.faults.delete)
      ensures old(repo.Record(userId, id)).Ok? && fault.None? && ProjectDir(userId, id) in repo.store.faults.list ==>
        err == Some(Failed(List(ProjectDir(userId, id)))) && repo.store.objects == old(repo.store.objects)
    {
      err := repo.DeleteProject(userId, id, fault);
      if err.Some? {
        return;
      }
      err := repo.DeleteProjectFiles(userId, id);
    }

    /** `CompileProjectWASM`: the owner's project is read, its main file
        compiled, and the module and its text form uploaded under the build
        directory, the text only once the module is stored; the first upload
        error is returned, otherwise a presigned URL for `main.wasm`. */
    method CompileProjectWASM(userId: string, projectId: string, compile: Compiler) returns (r: Result<string>)
      requires repo.Valid()
      modifies repo.store
      ensures old(repo.Record(userId, projectId)).Err? ==>
        r == Err(old(repo.Record(userId, projectId)).error) && repo.store.objects == old(repo.store.objects)
      // the sources cannot be read: that error, and nothing is built or stored
      ensures old(repo.Record(userId, projectId)).Ok? &&
              !Readable(old(repo.store.objects), repo.store.faults, SrcDir(userId, projectId)) ==>
        r.Err? && ReadError(old(repo.store.objects), repo.store.faults, SrcDir(userId, projectId), r.error)
        && repo.store.objects == old(repo.store.objects)
      // the sources are read: the compile step's outcome for the views read
      ensures old(repo.Record(userId, projectId)).Ok? &&
              Readable(old(repo.store.objects), repo.store.faults, SrcDir(userId, projectId)) ==>
        exists views: seq<FileView> |
          && IsFilesOf(old(repo.store.objects), SrcDir(userId, projectId), ViewsToFiles(views))
          && NamesHaveDot(ViewsToFiles(views)) && IsViewsOf(ViewsToFiles(views), views) ::
          CompileOutcome(old(repo.store.objects), repo.store.objects, repo.store.faults, repo.store.sign,
                         userId, projectId, String(old(repo.Record(userId, projectId)).value.language), views, compile, r)
      ensures r.Ok? ==>
        && repo.Record(userId, projectId).Ok?
        && r.value == repo.store.sign(Key(WasmDir(userId, projectId), "main.wasm"))
        && exists views: seq<FileView> |
             && IsFilesOf(old(repo.store.objects), SrcDir(userId, projectId), ViewsToFiles(views))
             && NamesHaveDot(ViewsToFiles(views)) && IsViewsOf(ViewsToFiles(views), views) ::
             StoresBuild(old(repo.store.objects), repo.store.objects, userId, projectId,
                         String(repo.Record(userId, projectId).value.language), views, compile)
    {
      var v := repo.GetProjectByID(userId, projectId);
      if v.Err? {
        return Err(v.error);
      }
      r := CompileView(userId, projectId, v.value, compile);
      assert v.value.language == String(repo.Record(userId, projectId).value.language);
      if r.Ok? {
        var views := v.value.files;
        assert v.value.language == String(repo.Record(userId, projectId).value.language);
        assert IsFilesOf(old(repo.store.objects), SrcDir(userId, projectId), ViewsToFiles(views));
      }
    }

    /** The part of `CompileProjectWASM` after the project is read, for its view `v`. */
    method CompileView(userId: string, projectId: string, v: ProjectView, compile: Compiler) returns (r: Result<string>)
      modifies repo.store
      ensures CompileOutcome(old(repo.store.objects), repo.store.objects, repo.store.faults, repo.store.sign,
                             userId, projectId, v.language, v.files, compile, r)
      ensures r.Ok? ==> StoresBuild(old(repo.store.objects), repo.store.objects, userId, projectId, v.language, v.files, compile)
    {
      var fname := MainFile(v.language);
      if fname.Err? {
        return Err(fname.error);
      }
      var mainFile := GetFileContent(v.files, fname.value);
      if mainFile.Err? {
        return Err(mainFile.error);
      }
      var language := GetProjectLanguage(v.language);
      var built := compile(language, mainFile.value, WatOpts);
      if built.1.Some? {
        return Err(built.1.value);
      }
      var res := built.0;
      var uploadErrs: seq<Error> := [];
      // the module's upload, then the text form's, which is skipped once an error is set
      var err := repo.UploadBuildFile(userId, projectId, "main.wasm", res.wasm);
      if err.Some? {
        uploadErrs := uploadErrs + [err.value];
      }
      if err.Some? {
        uploadErrs := uploadErrs + [err.value];
      } else {
        err := repo.UploadBuildFile(userId, projectId, "main.wat", res.wat);
        if err.Some? {
          uploadErrs := uploadErrs + [err.value];
        }
      }
      if |uploadErrs| > 0 {
        return Err(uploadErrs[0]);
      }
      r := repo.GenBuildPresignedURL(userId, projectId, "main.wasm");
    }

    /** `ForkProject`: the project shared under `code` is copied to a new
        record of the caller's, named `<name> (fork)`, in the same language,
        with the shared files (read from the bucket) stored under the new
        project's source directory. A failed lookup creates nothing. */
    method ForkProject(userId: string, code: string, id: string, now: int, fault: Option<string>) returns (r: Result<ProjectView>)
      requires repo.Valid()
      modifies repo, repo.store
      ensures repo.Valid()
      ensures (forall s | s in old(repo.db) :: !SharedUnder(old(repo.db)[s], code)) ==>
        r == Err(Database(RecordNotFound)) && repo.db == old(repo.db) && repo.store.objects == old(repo.store.objects)
      ensures forall s | s in old(repo.db) && SharedUnder(old(repo.db)[s], code) ::
        var shared := old(repo.db)[s];
        var src := SrcDir(shared.userId, shared.id);
        var p := NewProject(shared.name + " (fork)", userId, shared.language, id).(createdAt := now);
        // the shared files cannot be read: that error, and nothing is created
        && (!Readable(old(repo.store.objects), repo.store.faults, src) ==>
              r.Err? && ReadError(old(repo.store.objects), repo.store.faults, src, r.error)
              && repo.db == old(repo.db) && repo.store.objects == old(repo.store.objects))
        // the insert fails: its error, and nothing is created
        && (Readable(old(repo.store.objects), repo.store.faults, src) && (fault.Some? || id in old(repo.db)) ==>
              r.Err? && r.error.Database? && repo.db == old(repo.db) && repo.store.objects == old(repo.store.objects))
        // the record is created; the fork succeeds exactly when no upload of
        // a shared file is refused, and a refused one leaves the new record
        && (Readable(old(repo.store.objects), repo.store.faults, src) && fault.None? && id !in old(repo.db) ==>
              && repo.db == old(repo.db)[id := p]
              && (exists files | IsFilesOf(old(repo.store.objects), src, files) ::
                    repo.store.objects == old(repo.store.objects) + Stored(SrcDir(userId, id), files, repo.store.faults.upload))
              && (r.Ok? <==> forall k | k in Listed(old(repo.store.objects), src) && LastSegment(k) != "" ::
                                Key(SrcDir(userId, id), LastSegment(k)) !in repo.store.faults.upload))
      ensures r.Ok? ==> exists s | s in old(repo.db) && SharedUnder(old(repo.db)[s], code) ::
        var shared := old(repo.db)[s];
        var p := NewProject(shared.name + " (fork)", userId, shared.language, id).(createdAt := now);
        var files := ViewsToFiles(r.value.files);
        && repo.db == old(repo.db)[id := p]
        && r.value == View(p).(files := r.value.files)
        && NamesHaveDot(files) && IsViewsOf(files, r.value.files)
        && IsFilesOf(old(repo.store.objects), SrcDir(shared.userId, shared.id), files)
        && repo.store.objects == old(repo.store.objects) + Stored(SrcDir(userId, id), files, repo.store.faults.upload)
    {
      var shared, err := repo.GetProjectByShareCode(code);
      if err.Some? {
        if err != Some(Database(RecordNotFound)) {
          SharedIsUnique(repo.db, code, shared.id);
        }
        return Err(err.value);
      }
      SharedIsUnique(repo.db, code, shared.id);
      UploadsOfReadBack(repo.store.objects, SrcDir(shared.userId, shared.id), ViewsToFiles(shared.files),
                        SrcDir(userId, id), repo.store.faults.upload);
      r := ForkShared(userId, shared, id, now, fault);
    }

    /** The steps of `ForkProject` after the shared project `shared` is read:
        a new record of the caller's, named `<name> (fork)`, in the language
        read back from the view, then the view's files, turned back into a
        map, uploaded under the new project's source directory. */
    method ForkShared(userId: string, shared: ProjectView, id: string, now: int, fault: Option<string>) returns (r: Result<ProjectView>)
      requires repo.Valid() && NamesHaveDot(ViewsToFiles(shared.files))
      modifies repo, repo.store
      ensures repo.Valid()
      ensures fault.Some? || id in old(repo.db) ==>
        r.Err? && r.error.Database? && repo.db == old(repo.db) && repo.store.objects == old(repo.store.objects)
      ensures fault.None? && id !in old(repo.db) ==>
        var p := NewProject(shared.name + " (fork)", userId, LanguageNamed(shared.language), id).(createdAt := now);
        var files := ViewsToFiles(shared.files);
        && repo.db == old(repo.db)[id := p]
        && repo.store.objects == old(repo.store.objects) + Stored(SrcDir(userId, id), files, repo.store.faults.upload)
        && (r.Ok? <==> forall n | n in files :: Key(SrcDir(userId, id), n) !in repo.store.faults.upload)
        && (r.Ok? ==> r.value == View(p).(files := r.value.files)
                      && ViewsToFiles(r.value.files) == files && IsViewsOf(files, r.value.files))
    {
      var language := GetProjectLanguage(shared.language);
      var proj := repo.CreateProject(shared.name + " (fork)", userId, language, id, now, fault);
      if proj.Err? {
        return Err(proj.error);
      }
      r := CopyForkFiles(userId, proj.value, ViewsToFiles(shared.files));
    }

    /** The last step of a fork: the files uploaded under the new record's
        source directory, and the record's view with them. */
    method CopyForkFiles(userId: string, p: Project, files: ProjectFiles) returns (r: Result<ProjectView>)
      requires ValidLanguage(p.language) && NamesHaveDot(files)
      modifies repo.store
      ensures repo.store.objects == old(repo.store.objects) + Stored(SrcDir(userId, p.id), files, repo.store.faults.upload)
      ensures r.Ok? <==> forall n | n in files :: Key(SrcDir(userId, p.id), n) !in repo.store.faults.upload
      ensures r.Ok? ==> r.value == View(p).(files := r.value.files) && ViewsToFiles(r.value.files) == files && IsViewsOf(files, r.value.files)
    {
      var stored := repo.CreateProjectFilesWith(userId, p.id, Some(files));
      if stored.Err? {
        return Err(stored.error);
      }
      var v := ViewWithFiles(p, stored.value);
      ViewsRoundTrip(stored.value, v.files);
      r := Ok(v);
    }
  }
}
