/** projects/repo.go: the project repository. Project records live in a
    metadata table keyed by id, with a unique index on the share code; a
    project's files live in the bucket under `<user>/<project>/src`, its build
    outputs under `<user>/<project>/build`. */
module ProjectsRepo {
  import opened Base
  import opened Text
  import opened Files
  import opened ProjectModel
  import opened ShareCode
  import opened ObjectStore

  /** `getProjectDir`: `path.Join(userId, id)`. */
  function ProjectDir(userId: string, id: string): string
  {
    PathJoin(userId, id)
  }

  /** A directory directly under the project directory. */
  function SubDir(userId: string, id: string, leaf: string): (dir: string)
    ensures userId != "" && id != "" && leaf != "" ==> dir == userId + "/" + id + "/" + leaf
  {
    PathJoin(ProjectDir(userId, id), leaf)
  }

  /** `getProjectSrcDir`: the sources sit in `src` under the project directory. */
  function SrcDir(userId: string, id: string): string
  {
    SubDir(userId, id, "src")
  }

  /** `getProjectWasmDir`: the build outputs sit in `build` under the project directory. */
  function WasmDir(userId: string, id: string): string
  {
    SubDir(userId, id, "build")
  }

  /** The layout `<user>/<project>/src` and `<user>/<project>/build`; a
      source file and a build output never share a key. */
  lemma SourceAndBuildDirs(userId: string, id: string, a: string, b: string)
    requires userId != "" && id != ""
    ensures SrcDir(userId, id) == userId + "/" + id + "/src"
    ensures WasmDir(userId, id) == userId + "/" + id + "/build"
    ensures Key(SrcDir(userId, id), a) != Key(WasmDir(userId, id), b)
  {
    var n := |userId + "/" + id + "/"|;
    assert Key(SrcDir(userId, id), a)[n] == 's';
    assert Key(WasmDir(userId, id), b)[n] == 'b';
  }

  /** Every source and build object of a project is listed under the
      project directory, so deleting that directory reaches both. */
  lemma ProjectDirCoversFiles(userId: string, id: string, name: string)
    ensures HasPrefix(Key(SrcDir(userId, id), name), ProjectDir(userId, id))
    ensures HasPrefix(Key(WasmDir(userId, id), name), ProjectDir(userId, id))
  {
    var dir := ProjectDir(userId, id);
    assert SrcDir(userId, id) == if dir == "" then "src" else dir + "/" + "src";
    assert Key(SrcDir(userId, id), name)[..|dir|] == dir;
    assert Key(WasmDir(userId, id), name)[..|dir|] == dir;
  }

  /** The path presigned for a build output is the key its upload stores under. */
  function BuildPath(userId: string, id: string, name: string): (path: string)
    requires name != ""
    ensures path == Key(WasmDir(userId, id), name)
  {
    PathJoin(WasmDir(userId, id), name)
  }

  /** `model.ProjectView{}`, the zero view. */
  const NoView: ProjectView := ProjectView("", 0, "", "", [], "", "", "")

  /** The message of the table's unique-index violation. */
  const DuplicateKey: string := "duplicate" + " key value violates unique constraint"

  const NotFound: string := "project not found"
  const InvalidLanguage: string := "invalid project language"

  /** Each record is stored under its own id and has a language the table can name. */
  predicate WellKeyed(db: map<string, Project>)
  {
    forall id | id in db :: db[id].id == id && ValidLanguage(db[id].language)
  }

  /** The unique index on `share_code`: no two records hold the same set
      code (unset codes are NULL and never clash). */
  predicate UniqueCodes(db: map<string, Project>)
  {
    forall a, b | a in db && b in db && a != b && db[a].shareCode.valid && db[b].shareCode.valid ::
      db[a].shareCode.text != db[b].shareCode.text
  }

  /** A record that `getProjectByShareCode(code)` matches: shared, with that code set. */
  predicate SharedUnder(p: Project, code: string)
  {
    p.isShared && p.shareCode.valid && p.shareCode.text == code
  }

  /** `p` as `allowSharing` saves it with `code`. */
  function Shared(p: Project, code: string): (q: Project)
    ensures SharedUnder(q, code)
    ensures q.(isShared := p.isShared, shareCode := p.shareCode) == p
  {
    p.(isShared := true, shareCode := NullString(code, true))
  }

  /** `p` as `disallowSharing` leaves it: matched by no code at all. */
  function Unshared(p: Project): (q: Project)
    ensures forall code :: !SharedUnder(q, code)
    ensures !q.shareCode.valid
    ensures q.(isShared := p.isShared, shareCode := p.shareCode) == p
  {
    p.(isShared := false, shareCode := Null)
  }

  /** The text of the error the table reports when `p` is saved holding
      `code`: the unique-index violation when another record holds the
      code, otherwise whatever else goes wrong (`fault`). */
  function SaveError(db: map<string, Project>, p: Project, code: string, fault: Option<string>): (e: Option<string>)
    ensures (exists id | id in db && id != p.id :: db[id].shareCode == NullString(code, true)) ==> e == Some(DuplicateKey)
    ensures (forall id | id in db && id != p.id :: db[id].shareCode != NullString(code, true)) ==> e == fault
  {
    if exists id | id in db && id != p.id :: db[id].shareCode == NullString(code, true) then Some(DuplicateKey)
    else fault
  }

  /** `allowSharing` draws a new code and saves again exactly when the
      save error mentions "duplicate". */
  predicate Retries(e: Option<string>)
  {
    e.Some? && Contains(e.value, "duplicate")
  }

  /** The attempt `allowSharing` stops at, counting from attempt `i`: the
      first save whose error is not retried. */
  function FirstSettled(db: map<string, Project>, p: Project, codes: seq<string>, faults: seq<Option<string>>, i: int): (k: int)
    requires 0 <= i <= |codes| == |faults|
    requires exists k | i <= k < |codes| :: !Retries(SaveError(db, p, codes[k], faults[k]))
    ensures i <= k < |codes|
    ensures !Retries(SaveError(db, p, codes[k], faults[k]))
    ensures forall j | i <= j < k :: Retries(SaveError(db, p, codes[j], faults[j]))
    decreases |codes| - i
  {
    if !Retries(SaveError(db, p, codes[i], faults[i])) then i
    else FirstSettled(db, p, codes, faults, i + 1)
  }

  /** A clash on the unique index is always retried. */
  lemma DuplicateRetries()
    ensures Retries(Some(DuplicateKey))
  {
    assert DuplicateKey[..|"duplicate"|] == "duplicate";
    assert OccursAt(DuplicateKey, "duplicate", 0);
  }

  /** A save that the table accepts keeps the share codes unique, and the
      saved record is then the only one its code finds. */
  lemma SharedSaveKeepsCodesUnique(db: map<string, Project>, p: Project, code: string, fault: Option<string>)
    requires UniqueCodes(db) && p.id in db
    requires SaveError(db, p, code, fault).None?
    ensures UniqueCodes(db[p.id := Shared(p, code)])
    ensures forall id | id in db :: SharedUnder(db[p.id := Shared(p, code)][id], code) <==> id == p.id
  {
    var after := db[p.id := Shared(p, code)];
    forall a, b | a in after && b in after && a != b && after[a].shareCode.valid && after[b].shareCode.valid
      ensures after[a].shareCode.text != after[b].shareCode.text
    {
      if a == p.id {
        assert db[b].shareCode != NullString(code, true);
      } else if b == p.id {
        assert db[a].shareCode != NullString(code, true);
      }
    }
    forall id | id in db && id != p.id ensures !SharedUnder(after[id], code) {
      assert db[id].shareCode != NullString(code, true);
    }
  }

  /** The panic of `strings.Split(name, ".")[1]` on a name without a `.`. */
  const IndexOutOfRange: string := "index out of range"

  /** Every name a read of `dir` records (a non-empty last segment of a
      listed key) has a `.`, so its language can be read off it. */
  predicate ListedNamesHaveDot(objects: map<string, string>, dir: string)
  {
    forall k | k in Listed(objects, dir) && LastSegment(k) != "" :: '.' in LastSegment(k)
  }

  /** The files of `dir` can be read and turned into views. */
  predicate Readable(objects: map<string, string>, faults: Faults, dir: string)
  {
    Downloadable(objects, faults, dir) && ListedNamesHaveDot(objects, dir)
  }

  /** The error a read of `dir` that is not `Readable` ends with: the
      listing's, that of one refused download, or the panic on a name
      without a `.`. */
  predicate ReadError(objects: map<string, string>, faults: Faults, dir: string, e: Error)
  {
    if dir in faults.list then e == Failed(List(dir))
    else if !Downloadable(objects, faults, dir) then
      exists k | k in Listed(objects, dir) && k in faults.download :: e == Failed(Download(k))
    else e == Panicked(IndexOutOfRange)
  }

  /** Any map `GetFiles(dir)` may return has only dotted names exactly when
      every listed name is dotted. */
  lemma DottedReadBack(objects: map<string, string>, dir: string, files: ProjectFiles)
    requires IsFilesOf(objects, dir, files)
    ensures NamesHaveDot(files) <==> ListedNamesHaveDot(objects, dir)
  {
    if NamesHaveDot(files) {
      forall k | k in Listed(objects, dir) && LastSegment(k) != "" ensures '.' in LastSegment(k) {
        FileNamesOfListing(objects, dir, files, LastSegment(k));
      }
    } else {
      var name :| name in files && '.' !in name;
      FileNamesOfListing(objects, dir, files, name);
    }
  }

  /** Under unique codes, at most one record is shared under a code. */
  lemma SharedIsUnique(db: map<string, Project>, code: string, id: string)
    requires UniqueCodes(db) && id in db && SharedUnder(db[id], code)
    ensures forall s | s in db && SharedUnder(db[s], code) :: s == id
  {
  }

  /** The default files of a new project, or none for a language outside the table. */
  function DefaultFilesFor(language: int): (files: Option<ProjectFiles>)
    ensures files.Some? <==> ValidLanguage(language)
    ensures files.Some? ==> NamesHaveDot(files.value) && "index.html" in files.value
    ensures files.Some? ==> ("main.go" in files.value <==> language == LanguageGo)
    ensures files.Some? ==> ("main.ts" in files.value <==> language == LanguageAssemblyScript)
  {
    DefaultFileNames();
    if language == LanguageGo then Some(DefaultFilesGo)
    else if language == LanguageAssemblyScript then Some(DefaultFilesAssemblyScript)
    else None
  }

  /** `views` lists `userId`'s records: each view is the view of one of the
      user's records, no record twice, and every record of the user appears. */
  predicate IsListingOf(db: map<string, Project>, userId: string, views: seq<ProjectView>)
    requires WellKeyed(db)
  {
    && (forall i | 0 <= i < |views| ::
          views[i].id in db && db[views[i].id].userId == userId && views[i] == View(db[views[i].id]))
    && (forall i, j | 0 <= i < j < |views| :: views[i].id != views[j].id)
    && (forall id | id in db && db[id].userId == userId :: exists i | 0 <= i < |views| :: views[i].id == id)
  }

  /** `Repository`: the metadata table and the bucket. */
  class Repository {
    var db: map<string, Project>
    const store: Bucket

    constructor (db: map<string, Project>, store: Bucket)
      ensures this.db == db && this.store == store
    {
      this.db := db;
      this.store := store;
    }

    /** The table's constraints. */
    predicate Valid()
      reads this
    {
      WellKeyed(db) && UniqueCodes(db)
    }

    /** `createProject`: inserts `NewProject(name, userId, language)` under
        the id the generator drew, stamped `now` by the store. A failed
        insert (an id already taken, or `fault`) stores nothing. */
    method CreateProject(name: string, userId: string, language: int, id: string, now: int, fault: Option<string>)
      returns (r: Result<Project>)
      requires Valid() && ValidLanguage(language)
      modifies this
      ensures Valid()
      ensures fault.Some? ==> r == Err(Database(fault.value)) && db == old(db)
      ensures fault.None? && id in old(db) ==> r == Err(Database(DuplicateKey)) && db == old(db)
      ensures fault.None? && id !in old(db) ==>
        r == Ok(NewProject(name, userId, language, id).(createdAt := now)) && db == old(db)[id := r.value]
    {
      var p := NewProject(name, userId, language, id).(createdAt := now);
      if fault.Some? {
        return Err(Database(fault.value));
      }
      if id in db {
        return Err(Database(DuplicateKey));
      }
      db := db[id := p];
      r := Ok(p);
    }

    /** `createProjectFilesWith`: a missing map is refused before any
        upload; otherwise the files are uploaded under the source directory
        and returned unless an upload failed. */
    method CreateProjectFilesWith(userId: string, projectId: string, files: Option<ProjectFiles>)
      returns (r: Result<ProjectFiles>)
      modifies store
      ensures files.None? ==> r == Err(Message(InvalidLanguage)) && store.objects == old(store.objects)
      ensures files.Some? ==>
        store.objects == old(store.objects) + Stored(SrcDir(userId, projectId), files.value, store.faults.upload)
      ensures files.Some? ==>
        (r.Ok? <==> forall n | n in files.value :: Key(SrcDir(userId, projectId), n) !in store.faults.upload)
      ensures r.Ok? ==> r == Ok(files.value)
    {
      var srcDir := SrcDir(userId, projectId);
      if files.None? {
        return Err(Message(InvalidLanguage));
      }
      var err := store.UploadFiles(srcDir, files.value);
      if err.Some? {
        return Err(err.value);
      }
      r := Ok(files.value);
    }

    /** `createProjectFiles`: the language's default files, uploaded; the
        upload's error is dropped, so the files are returned even when
        their upload failed. */
    method CreateProjectFiles(userId: string, projectId: string, language: int) returns (r: Result<ProjectFiles>)
      modifies store
      ensures !ValidLanguage(language) ==> r == Err(Message(InvalidLanguage)) && store.objects == old(store.objects)
      ensures ValidLanguage(language) ==> r == Ok(DefaultFilesFor(language).value)
      ensures ValidLanguage(language) ==>
        store.objects == old(store.objects) + Stored(SrcDir(userId, projectId), r.value, store.faults.upload)
    {
      var files := DefaultFilesFor(language);
      if files.None? {
        return Err(Message(InvalidLanguage));
      }
      var _ := CreateProjectFilesWith(userId, projectId, files);
      r := Ok(files.value);
    }

    /** `getProjectsByUserID`: the views of the user's records, in the
        order the table returns them (left open here). */
    method GetProjectsByUserID(userId: string, fault: Option<string>) returns (r: Result<seq<ProjectView>>)
      requires Valid()
      ensures fault.Some? ==> r == Err(Database(fault.value))
      ensures fault.None? ==> r.Ok? && IsListingOf(db, userId, r.value)
    {
      if fault.Some? {
        return Err(Database(fault.value));
      }
      var projects := Owned(userId);
      var out := new ProjectView[|projects|];
      for i := 0 to |projects|
        invariant forall j | 0 <= j < i :: out[j] == View(projects[j])
      {
        out[i] := View(projects[i]);
      }
      r := Ok(out[..]);
    }

    /** The `Find` of `getProjectsByUserID`: the user's records, each once. */
    method Owned(userId: string) returns (projects: seq<Project>)
      requires Valid()
      ensures forall i | 0 <= i < |projects| ::
        projects[i].id in db && db[projects[i].id] == projects[i] && projects[i].userId == userId
      ensures forall i, j | 0 <= i < j < |projects| :: projects[i].id != projects[j].id
      ensures forall id | id in db && db[id].userId == userId :: exists i | 0 <= i < |projects| :: projects[i].id == id
    {
      projects := [];
      var rest := db.Keys;
      while rest != {}
        invariant rest <= db.Keys
        invariant forall i | 0 <= i < |projects| ::
          projects[i].id in db && projects[i].id !in rest && db[projects[i].id] == projects[i] && projects[i].userId == userId
        invariant forall i, j | 0 <= i < j < |projects| :: projects[i].id != projects[j].id
        invariant forall id | id in db && id !in rest && db[id].userId == userId ::
          exists i | 0 <= i < |projects| :: projects[i].id == id
        decreases rest
      {
        var id :| id in rest;
        if db[id].userId == userId {
          ghost var before := projects;
          projects := projects + [db[id]];
          forall other | other in db && other !in rest - {id} && db[other].userId == userId
            ensures exists i | 0 <= i < |projects| :: projects[i].id == other
          {
            if other == id {
              assert projects[|projects| - 1].id == other;
            } else {
              var i :| 0 <= i < |before| && before[i].id == other;
              assert projects[i] == before[i];
            }
          }
        }
        rest := rest - {id};
      }
    }

    /** `getProjectRecord`: the record with that id if the caller owns it;
        the table's "record not found" when there is none, and
        "project not found" for a record of another user. */
    function Record(userId: string, id: string): (r: Result<Project>)
      reads this
      ensures r.Ok? <==> id in db && db[id].userId == userId
      ensures r.Ok? ==> r.value == db[id]
      ensures id !in db ==> r == Err(Database(RecordNotFound))
      ensures id in db && db[id].userId != userId ==> r == Err(Message(NotFound))
    {
      if id !in db then Err(Database(RecordNotFound))
      else if db[id].userId != userId then Err(Message(NotFound))
      else Ok(db[id])
    }

    /** The files of `dir` read from the bucket and turned into views; a
        file name without a `.` makes `languageFromFileName` panic. */
    method ReadViews(dir: string) returns (r: Result<seq<FileView>>)
      ensures r.Ok? <==> Readable(store.objects, store.faults, dir)
      ensures r.Err? ==> ReadError(store.objects, store.faults, dir, r.error)
      ensures r.Ok? ==>
        NamesHaveDot(ViewsToFiles(r.value)) && IsViewsOf(ViewsToFiles(r.value), r.value)
        && IsFilesOf(store.objects, dir, ViewsToFiles(r.value))
    {
      var files := store.GetFiles(dir);
      if files.Err? {
        return Err(files.error);
      }
      DottedReadBack(store.objects, dir, files.value);
      if !NamesHaveDot(files.value) {
        return Err(Panicked(IndexOutOfRange));
      }
      var views := ProjectFilesToFileViews(files.value);
      ViewsRoundTrip(files.value, views);
      r := Ok(views);
    }

    /** `getProjectByID`: the owner's record with its files. */
    method GetProjectByID(userId: string, id: string) returns (r: Result<ProjectView>)
      requires Valid()
      ensures Record(userId, id).Err? ==> r == Err(Record(userId, id).error)
      ensures Record(userId, id).Ok? ==> (r.Ok? <==> Readable(store.objects, store.faults, SrcDir(userId, id)))
      ensures Record(userId, id).Ok? && r.Err? ==> ReadError(store.objects, store.faults, SrcDir(userId, id), r.error)
      ensures r.Ok? ==> Record(userId, id).Ok? && r.value == View(db[id]).(files := r.value.files)
      ensures r.Ok? ==>
        NamesHaveDot(ViewsToFiles(r.value.files)) && IsViewsOf(ViewsToFiles(r.value.files), r.value.files)
        && IsFilesOf(store.objects, SrcDir(userId, id), ViewsToFiles(r.value.files))
    {
      var p := Record(userId, id);
      if p.Err? {
        return Err(p.error);
      }
      var views := ReadViews(SrcDir(userId, id));
      if views.Err? {
        return Err(views.error);
      }
      r := Ok(View(p.value).(files := views.value));
    }

    /** `deleteProject`: the owner's record is removed; nothing else changes. */
    method DeleteProject(userId: string, id: string, fault: Option<string>) returns (err: Option<Error>)
      requires Valid()
      modifies this
      ensures Valid()
      ensures old(Record(userId, id)).Err? ==> err == Some(old(Record(userId, id)).error) && db == old(db)
      ensures old(Record(userId, id)).Ok? && fault.Some? ==> err == Some(Database(fault.value)) && db == old(db)
      ensures old(Record(userId, id)).Ok? && fault.None? ==> err.None? && db == old(db) - {id}
    {
      var p := Record(userId, id);
      if p.Err? {
        return Some(p.error);
      }
      if fault.Some? {
        return Some(Database(fault.value));
      }
      db := db - {id};
      err := None;
    }

    /** `deleteProjectFiles`: every object under the project directory,
        sources and build outputs alike. */
    method DeleteProjectFiles(userId: string, id: string) returns (err: Option<Error>)
      modifies store
      ensures ProjectDir(userId, id) in store.faults.list ==>
        err == Some(Failed(List(ProjectDir(userId, id)))) && store.objects == old(store.objects)
      ensures ProjectDir(userId, id) !in store.faults.list ==>
        store.objects == AfterDelete(old(store.objects), ProjectDir(userId, id), store.faults.delete)
      ensures ProjectDir(userId, id) !in store.faults.list ==>
        (err.None? <==> forall k | k in old(store.objects) && HasPrefix(k, ProjectDir(userId, id)) :: k !in store.faults.delete)
    {
      err := store.DeleteDir(ProjectDir(userId, id));
    }

    /** `uploadProjectSrcFiles`: the files uploaded under the source directory. */
    method UploadProjectSrcFiles(userId: string, id: string, files: ProjectFiles) returns (r: Result<ProjectFiles>)
      modifies store
      ensures store.objects == old(store.objects) + Stored(SrcDir(userId, id), files, store.faults.upload)
      ensures r.Ok? <==> forall n | n in files :: Key(SrcDir(userId, id), n) !in store.faults.upload
      ensures r.Ok? ==> r.value == files
    {
      var err := store.UploadFiles(SrcDir(userId, id), files);
      if err.Some? {
        return Err(err.value);
      }
      r := Ok(files);
    }

    /** `uploadBuildFile`: one object under the build directory. */
    method UploadBuildFile(userId: string, id: string, name: string, content: string) returns (err: Option<Error>)
      modifies store
      ensures var key := Key(WasmDir(userId, id), name);
        && (key in store.faults.upload ==> err == Some(Failed(Op.Upload(key))) && store.objects == old(store.objects))
        && (key !in store.faults.upload ==> err.None? && store.objects == old(store.objects)[key := content])
    {
      var r := store.Upload(WasmDir(userId, id), name, content);
      if r.Err? {
        return Some(r.error);
      }
      err := None;
    }

    /** `genProjectWasmPresignedURL` and `genProjectWatPresignedURL`: a URL
        for `main.wasm` or `main.wat` under the build directory. */
    method GenBuildPresignedURL(userId: string, id: string, name: string) returns (r: Result<string>)
      requires name != ""
      ensures BuildPath(userId, id, name) in store.faults.presign ==> r == Err(Failed(Presign(BuildPath(userId, id, name))))
      ensures BuildPath(userId, id, name) !in store.faults.presign ==> r == Ok(store.sign(Key(WasmDir(userId, id), name)))
    {
      r := store.GenPresignedURL(BuildPath(userId, id, name));
    }

    /** `renameProject`: the owner's record saved under the new name. */
    method RenameProject(userId: string, id: string, name: string, fault: Option<string>) returns (r: Result<ProjectView>)
      requires Valid()
      modifies this
      ensures Valid()
      ensures old(Record(userId, id)).Err? ==> r == Err(old(Record(userId, id)).error) && db == old(db)
      ensures old(Record(userId, id)).Ok? && fault.Some? ==> r == Err(Database(fault.value)) && db == old(db)
      ensures old(Record(userId, id)).Ok? && fault.None? ==>
        db == old(db)[id := old(db)[id].(name := name)] && r == Ok(View(db[id]))
    {
      var p := Record(userId, id);
      if p.Err? {
        return Err(p.error);
      }
      var renamed := p.value.(name := name);
      if fault.Some? {
        return Err(Database(fault.value));
      }
      db := db[id := renamed];
      r := Ok(View(renamed));
    }

    /** `allowSharing`: saves the record shared under a freshly drawn code,
        drawing again (the next of `codes`) after every error that mentions
        "duplicate"; any other save error ends it with no code. `faults[i]`
        is what else may go wrong with the i-th save. The source loops for
        as long as saves clash, so some save is required to settle. */
    method AllowSharing(p: Project, codes: seq<string>, faults: seq<Option<string>>) returns (code: string, err: Option<Error>)
      requires Valid() && p.id in db && db[p.id] == p
      requires |faults| == |codes| && forall i | 0 <= i < |codes| :: IsShareCode(codes[i])
      requires exists k | 0 <= k < |codes| :: !Retries(SaveError(db, p, codes[k], faults[k]))
      modifies this
      ensures Valid()
      ensures var k := FirstSettled(old(db), p, codes, faults, 0);
        var e := SaveError(old(db), p, codes[k], faults[k]);
        && (e.None? ==> code == codes[k] && err.None? && db == old(db)[p.id := Shared(p, code)])
        && (e.Some? ==> code == "" && err == Some(Database(e.value)) && db == old(db))
      ensures err.None? ==> IsShareCode(code) && db[p.id] == Shared(p, code)
    {
      var i := 0;
      while true
        invariant 0 <= i <= FirstSettled(db, p, codes, faults, 0)
        invariant FirstSettled(db, p, codes, faults, i) == FirstSettled(db, p, codes, faults, 0)
        decreases |codes| - i
      {
        var e := SaveError(db, p, codes[i], faults[i]);
        if e.None? {
          SharedSaveKeepsCodesUnique(db, p, codes[i], faults[i]);
          db := db[p.id := Shared(p, codes[i])];
          return codes[i], None;
        }
        if !Contains(e.value, "duplicate") {
          return "", Some(Database(e.value));
        }
        i := i + 1;
      }
    }

    /** `disallowSharing`: the record is no longer shared and its code is NULL. */
    method DisallowSharing(p: Project, fault: Option<string>) returns (err: Option<Error>)
      requires Valid()
      modifies this
      ensures Valid()
      ensures fault.Some? ==> err == Some(Database(fault.value)) && db == old(db)
      ensures fault.None? && p.id in old(db) ==> err.None? && db == old(db)[p.id := Unshared(old(db)[p.id])]
      ensures fault.None? && p.id !in old(db) ==> err.None? && db == old(db)
    {
      if fault.Some? {
        return Some(Database(fault.value));
      }
      if p.id in db {
        db := db[p.id := Unshared(db[p.id])];
      }
      err := None;
    }

    /** `toggleSharing`: the owner's record shared (returning its code) or
        unshared (returning ""). */
    method ToggleSharing(userId: string, id: string, share: bool, codes: seq<string>, faults: seq<Option<string>>, fault: Option<string>)
      returns (code: string, err: Option<Error>)
      requires Valid()
      requires |faults| == |codes| && forall i | 0 <= i < |codes| :: IsShareCode(codes[i])
      requires share && Record(userId, id).Ok? ==>
        exists k | 0 <= k < |codes| :: !Retries(SaveError(db, db[id], codes[k], faults[k]))
      modifies this
      ensures Valid()
      ensures old(Record(userId, id)).Err? ==> code == "" && err == Some(old(Record(userId, id)).error) && db == old(db)
      // sharing: the first save that is not retried decides, as in `allowSharing`
      ensures old(Record(userId, id)).Ok? && share ==>
        var k := FirstSettled(old(db), old(db)[id], codes, faults, 0);
        var e := SaveError(old(db), old(db)[id], codes[k], faults[k]);
        && (e.None? ==> code == codes[k] && err.None? && db == old(db)[id := Shared(old(db)[id], code)])
        && (e.Some? ==> code == "" && err == Some(Database(e.value)) && db == old(db))
      ensures old(Record(userId, id)).Ok? && share && err.None? ==>
        IsShareCode(code) && db == old(db)[id := Shared(old(db)[id], code)]
      // unsharing: no code, and either the record unshared or the fault with nothing changed
      ensures old(Record(userId, id)).Ok? && !share ==> code == ""
      ensures old(Record(userId, id)).Ok? && !share && fault.None? ==>
        err.None? && db == old(db)[id := Unshared(old(db)[id])]
      ensures old(Record(userId, id)).Ok? && !share && fault.Some? ==>
        err == Some(Database(fault.value)) && db == old(db)
    {
      var p := Record(userId, id);
      if p.Err? {
        return "", Some(p.error);
      }
      if share {
        code, err := AllowSharing(p.value, codes, faults);
        return;
      }
      err := DisallowSharing(p.value, fault);
      code := "";
    }

    /** `getProjectByShareCode`: the record shared under `code`, with its
        files; when reading the files fails, the record's view is returned
        beside the error. */
    method GetProjectByShareCode(code: string) returns (v: ProjectView, err: Option<Error>)
      requires Valid()
      ensures (forall id | id in db :: !SharedUnder(db[id], code)) <==> err == Some(Database(RecordNotFound))
      ensures err == Some(Database(RecordNotFound)) ==> v == NoView
      ensures err != Some(Database(RecordNotFound)) ==>
        v.id in db && SharedUnder(db[v.id], code) && v == View(db[v.id]).(files := v.files)
      ensures err.Some? ==> v.files == []
      ensures err != Some(Database(RecordNotFound)) ==>
        (err.None? <==> Readable(store.objects, store.faults, SrcDir(v.userId, v.id)))
      ensures err.Some? && err != Some(Database(RecordNotFound)) ==>
        ReadError(store.objects, store.faults, SrcDir(v.userId, v.id), err.value)
      ensures err.None? ==>
        NamesHaveDot(ViewsToFiles(v.files)) && IsViewsOf(ViewsToFiles(v.files), v.files)
        && IsFilesOf(store.objects, SrcDir(v.userId, v.id), ViewsToFiles(v.files))
    {
      if !exists id | id in db :: SharedUnder(db[id], code) {
        return NoView, Some(Database(RecordNotFound));
      }
      var id :| id in db && SharedUnder(db[id], code);
      var p := db[id];
      var views := ReadViews(SrcDir(p.userId, p.id));
      if views.Err? {
        return View(p), Some(views.error);
      }
      v, err := View(p).(files := views.value), None;
    }
  }
}
