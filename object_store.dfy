/** s3/service.go: the object bucket that holds project sources and build
    outputs. Objects are keyed `<dir>/<name>`; a directory is read back by
    listing the keys under a prefix and naming each object by the last
    segment of its key. */
module ObjectStore {
  import opened Base
  import opened Text
  import opened Files

  /** `fmt.Sprintf("%s/%s", dir, fileName)`: the key an upload stores under. */
  function Key(dir: string, name: string): string
  {
    dir + "/" + name
  }

  /** Two names of one directory never share a key. */
  lemma KeyInjective(dir: string)
    ensures forall a, b {:trigger Key(dir, a), Key(dir, b)} | Key(dir, a) == Key(dir, b) :: a == b
  {
    forall a, b | Key(dir, a) == Key(dir, b) ensures a == b {
      assert a == Key(dir, a)[|dir| + 1..];
      assert b == Key(dir, b)[|dir| + 1..];
    }
  }

  /** Every key of a directory starts with the directory, so a listing of
      that prefix finds it, and the name is read back from the key's last
      segment when it holds no `/`. */
  lemma NameOfKey(dir: string, name: string)
    requires '/' !in name
    ensures HasPrefix(Key(dir, name), dir)
    ensures LastSegment(Key(dir, name)) == name
  {
    assert Key(dir, name)[..|dir|] == dir;
    LastSegmentOfJoin(dir, name);
  }

  /** Which requests the bucket refuses: uploads and downloads by key,
      listings by prefix, deletes by key, presigning by path. */
  datatype Faults = Faults(
    upload: set<string>,
    download: set<string>,
    list: set<string>,
    delete: set<string>,
    presign: set<string>)

  /** The objects `UploadFiles(dir, files)` adds: one per file whose upload
      is not refused, under the file's key. */
  function Stored(dir: string, files: ProjectFiles, fails: set<string>): (m: map<string, string>)
    ensures forall n | n in files && Key(dir, n) !in fails :: Key(dir, n) in m && m[Key(dir, n)] == files[n]
    ensures forall k | k in m :: exists n | n in files && Key(dir, n) !in fails :: k == Key(dir, n)
  {
    KeyInjective(dir);
    map n | n in files && Key(dir, n) !in fails :: Key(dir, n) := files[n]
  }

  /** One more file of the directory uploaded: its object is added over
      the bucket's earlier contents, unless its upload is refused. */
  lemma StoredAdd(dir: string, files: ProjectFiles, n: string, content: string, fails: set<string>)
    requires n !in files
    ensures Key(dir, n) in fails ==> Stored(dir, files[n := content], fails) == Stored(dir, files, fails)
    ensures Key(dir, n) !in fails ==> Stored(dir, files[n := content], fails) == Stored(dir, files, fails)[Key(dir, n) := content]
  {
    KeyInjective(dir);
    var more := files[n := content];
    var before := Stored(dir, files, fails);
    var after := Stored(dir, more, fails);
    var expected := if Key(dir, n) in fails then before else before[Key(dir, n) := content];
    forall k | k in after ensures k in expected && after[k] == expected[k] {
      var m :| m in more && Key(dir, m) !in fails && k == Key(dir, m);
      if m != n {
        assert m in files;
      }
    }
    forall k | k in expected ensures k in after {
      if k != Key(dir, n) || Key(dir, n) in fails {
        var m :| m in files && Key(dir, m) !in fails && k == Key(dir, m);
        assert m in more;
      }
    }
    SameEntries(after, expected);
  }

  /** Updating a key of the union is updating it in the right-hand map. */
  lemma UnionUpdate(a: map<string, string>, b: map<string, string>, k: string, v: string)
    ensures (a + b)[k := v] == a + b[k := v]
  {
  }

  /** The keys `ListObjects` returns for a prefix: all keys starting with it. */
  function Listed(objects: map<string, string>, prefix: string): set<string>
  {
    set k | k in objects && HasPrefix(k, prefix)
  }

  /** Each file is named by the non-empty last segment of one of `keys`
      and holds that object. */
  predicate FilesFrom(objects: map<string, string>, keys: set<string>, files: ProjectFiles)
  {
    forall name | name in files ::
      name != "" && exists k | k in keys && k in objects :: LastSegment(k) == name && files[name] == objects[k]
  }

  /** Each of `keys` with a non-empty last segment gives a file. */
  predicate Covers(keys: set<string>, files: ProjectFiles)
  {
    forall k | k in keys && LastSegment(k) != "" :: LastSegment(k) in files
  }

  /** What `GetFiles(dir)` may return over `objects`: each file is named by
      the last segment of a key listed under `dir` and holds that object;
      each listed key with a non-empty last segment gives a file. When two
      keys share a last segment, which object wins is left open, as the
      downloads run concurrently. */
  predicate IsFilesOf(objects: map<string, string>, dir: string, files: ProjectFiles)
  {
    FilesFrom(objects, Listed(objects, dir), files) && Covers(Listed(objects, dir), files)
  }

  /** The names `GetFiles(dir)` records are exactly the non-empty last
      segments of the keys listed under `dir`. */
  lemma FileNamesOfListing(objects: map<string, string>, dir: string, files: ProjectFiles, name: string)
    requires IsFilesOf(objects, dir, files)
    ensures name in files <==> exists k | k in Listed(objects, dir) :: LastSegment(k) == name && name != ""
  {
  }

  /** Uploading a map read back from `dir` under `dst` is refused for some
      file exactly when it is refused for the name of some listed key. */
  lemma UploadsOfReadBack(objects: map<string, string>, dir: string, files: ProjectFiles, dst: string, fails: set<string>)
    requires IsFilesOf(objects, dir, files)
    ensures (forall n | n in files :: Key(dst, n) !in fails) <==>
            (forall k | k in Listed(objects, dir) && LastSegment(k) != "" :: Key(dst, LastSegment(k)) !in fails)
  {
    if forall n | n in files :: Key(dst, n) !in fails {
      forall k | k in Listed(objects, dir) && LastSegment(k) != "" ensures Key(dst, LastSegment(k)) !in fails {
        FileNamesOfListing(objects, dir, files, LastSegment(k));
      }
    } else {
      var n :| n in files && Key(dst, n) in fails;
      FileNamesOfListing(objects, dir, files, n);
    }
  }

  /** Listing `dir` and downloading every object under it are all accepted. */
  predicate Downloadable(objects: map<string, string>, faults: Faults, dir: string)
  {
    dir !in faults.list && forall k | k in objects && HasPrefix(k, dir) :: k !in faults.download
  }

  /** Recording one more downloaded object keeps each file traced to a key. */
  lemma RecordStep(objects: map<string, string>, keys: set<string>, files: ProjectFiles, k: string)
    requires FilesFrom(objects, keys, files) && k in objects
    ensures LastSegment(k) == "" ==> FilesFrom(objects, keys + {k}, files)
    ensures LastSegment(k) != "" ==> FilesFrom(objects, keys + {k}, files[LastSegment(k) := objects[k]])
  {
    var name := LastSegment(k);
    var more := if name == "" then files else files[name := objects[k]];
    forall other | other in more
      ensures exists j | j in keys + {k} && j in objects :: LastSegment(j) == other && more[other] == objects[j]
    {
      if name != "" && other == name {
        assert k in keys + {k};
      } else {
        var j :| j in keys && j in objects && LastSegment(j) == other && files[other] == objects[j];
        assert j in keys + {k};
      }
    }
  }

  /** Recording one more downloaded object keeps every key covered. */
  lemma CoverStep(keys: set<string>, files: ProjectFiles, k: string, content: string)
    requires Covers(keys, files)
    ensures LastSegment(k) == "" ==> Covers(keys + {k}, files)
    ensures LastSegment(k) != "" ==> Covers(keys + {k}, files[LastSegment(k) := content])
  {
  }

  /** The bucket after `DeleteDir(dir)`: the keys listed under `dir` are
      gone except those whose delete is refused; every other object stays. */
  function AfterDelete(objects: map<string, string>, dir: string, fails: set<string>): (m: map<string, string>)
    ensures m.Keys <= objects.Keys
    ensures forall k | k in m :: m[k] == objects[k]
    ensures forall k | k in objects :: k !in m <==> HasPrefix(k, dir) && k !in fails
  {
    map k | k in objects && (!HasPrefix(k, dir) || k in fails) :: objects[k]
  }

  /** Uploading a directory's files into a bucket that holds nothing under
      that prefix, with every upload accepted and every name a plain
      non-empty file name, and then reading the directory back, gives
      exactly the uploaded files. */
  lemma FilesRoundTrip(objects: map<string, string>, dir: string, files: ProjectFiles, fails: set<string>, got: ProjectFiles)
    requires forall k | k in objects :: !HasPrefix(k, dir)
    requires forall n | n in files :: n != "" && '/' !in n && Key(dir, n) !in fails
    requires IsFilesOf(objects + Stored(dir, files, fails), dir, got)
    ensures got == files
  {
    ReadBackIsUploaded(objects, dir, files, fails, got);
    UploadedIsReadBack(objects, dir, files, fails, got);
    SameEntries(got, files);
  }

  /** Two maps with the same keys and the same values are equal. */
  lemma SameEntries(a: ProjectFiles, b: ProjectFiles)
    requires forall name | name in a :: name in b && a[name] == b[name]
    requires b.Keys <= a.Keys
    ensures a == b
  {
  }

  /** Each file read back is an uploaded file, with its content. */
  lemma ReadBackIsUploaded(objects: map<string, string>, dir: string, files: ProjectFiles, fails: set<string>, got: ProjectFiles)
    requires forall k | k in objects :: !HasPrefix(k, dir)
    requires forall n | n in files :: '/' !in n
    requires IsFilesOf(objects + Stored(dir, files, fails), dir, got)
    ensures forall name | name in got :: name in files && got[name] == files[name]
  {
    var stored := Stored(dir, files, fails);
    var all := objects + stored;
    forall name | name in got ensures name in files && got[name] == files[name] {
      var k :| k in all && HasPrefix(k, dir) && LastSegment(k) == name && got[name] == all[k];
      assert k in stored;
      var n :| n in files && Key(dir, n) !in fails && k == Key(dir, n);
      NameOfKey(dir, n);
    }
  }

  /** Each uploaded file is read back. */
  lemma UploadedIsReadBack(objects: map<string, string>, dir: string, files: ProjectFiles, fails: set<string>, got: ProjectFiles)
    requires forall n | n in files :: n != "" && '/' !in n && Key(dir, n) !in fails
    requires IsFilesOf(objects + Stored(dir, files, fails), dir, got)
    ensures files.Keys <= got.Keys
  {
    var stored := Stored(dir, files, fails);
    forall n | n in files ensures n in got {
      NameOfKey(dir, n);
      assert Key(dir, n) in stored;
      assert Key(dir, n) in objects + stored;
    }
  }

  /** The bucket (`Service`): the objects it holds, the requests it refuses
      and the signer that turns a path into a presigned URL. */
  class Bucket {
    var objects: map<string, string>
    const faults: Faults
    const sign: string -> string

    constructor (objects: map<string, string>, faults: Faults, sign: string -> string)
      ensures this.objects == objects && this.faults == faults && this.sign == sign
    {
      this.objects := objects;
      this.faults := faults;
      this.sign := sign;
    }

    /** `Upload` (and `UploadFile`, its string form): store `content` under
        `dir/name`; the location reported is the key. */
    method Upload(dir: string, name: string, content: string) returns (r: Result<string>)
      modifies this
      ensures Key(dir, name) in faults.upload ==> r == Err(Failed(Op.Upload(Key(dir, name)))) && objects == old(objects)
      ensures Key(dir, name) !in faults.upload ==> r == Ok(Key(dir, name)) && objects == old(objects)[Key(dir, name) := content]
    {
      var key := Key(dir, name);
      if key in faults.upload {
        return Err(Failed(Op.Upload(key)));
      }
      objects := objects[key := content];
      r := Ok(key);
    }

    /** `UploadFiles`: one upload per entry, in the map's (unspecified)
        order; every upload is attempted, and the error of a refused one is
        reported. */
    method UploadFiles(dir: string, files: ProjectFiles) returns (err: Option<Error>)
      modifies this
      ensures objects == old(objects) + Stored(dir, files, faults.upload)
      ensures err.None? <==> forall n | n in files :: Key(dir, n) !in faults.upload
      ensures err.Some? ==> exists n | n in files && Key(dir, n) in faults.upload :: err.value == Failed(Op.Upload(Key(dir, n)))
    {
      err := None;
      ghost var bad := "";
      ghost var done: ProjectFiles := map[];
      var rest := files.Keys;
      while rest != {}
        invariant rest <= files.Keys && done.Keys == files.Keys - rest
        invariant forall n | n in done :: done[n] == files[n]
        invariant objects == old(objects) + Stored(dir, done, faults.upload)
        invariant err.None? <==> forall n | n in done :: Key(dir, n) !in faults.upload
        invariant err.Some? ==> bad in files && Key(dir, bad) in faults.upload && err.value == Failed(Op.Upload(Key(dir, bad)))
        decreases rest
      {
        var n :| n in rest;
        StoredAdd(dir, done, n, files[n], faults.upload);
        var r := Upload(dir, n, files[n]);
        if r.Err? {
          err, bad := Some(r.error), n;
        } else {
          UnionUpdate(old(objects), Stored(dir, done, faults.upload), Key(dir, n), files[n]);
        }
        done := done[n := files[n]];
        rest := rest - {n};
      }
      SameEntries(done, files);
    }

    /** `GetFile` (through `Get`): the object's content, or the download error. */
    method GetFile(path: string) returns (r: Result<string>)
      ensures path in objects && path !in faults.download ==> r == Ok(objects[path])
      ensures path !in objects || path in faults.download ==> r == Err(Failed(Download(path)))
    {
      if path in objects && path !in faults.download {
        return Ok(objects[path]);
      }
      return Err(Failed(Download(path)));
    }

    /** `GetFiles`: list the keys under `dir`, download each, and record it
        under its key's last segment unless that segment is empty. */
    method GetFiles(dir: string) returns (r: Result<ProjectFiles>)
      ensures dir in faults.list ==> r == Err(Failed(List(dir)))
      ensures dir !in faults.list ==>
        (r.Err? <==> exists k | k in objects && HasPrefix(k, dir) :: k in faults.download)
      ensures dir !in faults.list && r.Err? ==>
        exists k | k in objects && HasPrefix(k, dir) && k in faults.download :: r.error == Failed(Download(k))
      ensures r.Ok? <==> Downloadable(objects, faults, dir)
      ensures r.Ok? ==> IsFilesOf(objects, dir, r.value)
    {
      if dir in faults.list {
        return Err(Failed(List(dir)));
      }
      var listed := Listed(objects, dir);
      var files: ProjectFiles := map[];
      var failed: Option<string> := None;
      ghost var done: set<string> := {};
      var rest := listed;
      while rest != {}
        invariant rest <= listed && done == listed - rest
        invariant failed.None? <==> forall k | k in done :: k !in faults.download
        invariant failed.Some? ==> failed.value in listed && failed.value in faults.download
        invariant FilesFrom(objects, done, files)
        invariant failed.None? ==> Covers(done, files)
        decreases rest
      {
        var k :| k in rest;
        RecordStep(objects, done, files, k);
        if failed.None? {
          CoverStep(done, files, k, objects[k]);
        }
        var content := GetFile(k);
        if content.Err? {
          failed := Some(k);
        } else {
          var name := LastSegment(k);
          if name != "" {
            files := files[name := content.value];
          }
        }
        done := done + {k};
        rest := rest - {k};
      }
      if failed.Some? {
        return Err(Failed(Download(failed.value)));
      }
      r := Ok(files);
    }

    /** `DeleteDir`: list the keys under `dir` and delete each; a refused
        delete leaves its object and is reported. */
    method DeleteDir(dir: string) returns (err: Option<Error>)
      modifies this
      ensures dir in faults.list ==> err == Some(Failed(List(dir))) && objects == old(objects)
      ensures dir !in faults.list ==> objects == AfterDelete(old(objects), dir, faults.delete)
      ensures dir !in faults.list ==>
        (err.None? <==> forall k | k in old(objects) && HasPrefix(k, dir) :: k !in faults.delete)
      ensures dir !in faults.list && err.Some? ==>
        exists k | k in old(objects) && HasPrefix(k, dir) && k in faults.delete :: err.value == Failed(Delete(k))
    {
      if dir in faults.list {
        return Some(Failed(List(dir)));
      }
      var listed := set k | k in objects && HasPrefix(k, dir);
      err := None;
      var rest := listed;
      while rest != {}
        invariant rest <= listed
        invariant objects.Keys == old(objects).Keys - (set k | k in listed - rest && k !in faults.delete)
        invariant forall k | k in objects :: objects[k] == old(objects)[k]
        invariant err.None? <==> forall k | k in listed - rest :: k !in faults.delete
        invariant err.Some? ==> exists k | k in listed - rest && k in faults.delete :: err.value == Failed(Delete(k))
        decreases rest
      {
        var k :| k in rest;
        if k in faults.delete {
          err := Some(Failed(Delete(k)));
        } else {
          objects := objects - {k};
        }
        rest := rest - {k};
      }
      assert objects == AfterDelete(old(objects), dir, faults.delete);
    }

    /** `GenPresignedURL`: the signer's URL for the path, or the error. */
    method GenPresignedURL(path: string) returns (r: Result<string>)
      ensures path in faults.presign ==> r == Err(Failed(Presign(path)))
      ensures path !in faults.presign ==> r == Ok(sign(path))
    {
      if path in faults.presign {
        return Err(Failed(Presign(path)));
      }
      r := Ok(sign(path));
    }
  }
}
