/** model/file.go and its older copy modules/model/file.go: a project's
    files as a map from file name to content, their list form shown to
    clients, the lookup of one file, and the files a new project starts with. */
module Files {
  import opened Base
  import opened Text

  /** `ProjectFiles`: file name -> content. */
  type ProjectFiles = map<string, string>

  datatype FileView = FileView(name: string, content: string, language: string)

  /** `languageFromFileName`: the second `.`-separated piece of the name,
      that is, the text between the first `.` and the next one. A name
      without a `.` makes the source index out of range. */
  function LanguageFromFileName(fileName: string): (language: string)
    requires '.' in fileName
    ensures '.' !in language
  {
    SplitWithSeparator(fileName, '.');
    Split(fileName, '.')[1]
  }

  /** The usual case: `main.go` gives `go`, and `a.b.c` gives `b`. */
  lemma ExtensionIsLanguage(base: string, ext: string, rest: string)
    requires '.' !in base && '.' !in ext
    requires rest == "" || rest[0] == '.'
    ensures '.' in base + "." + ext + rest
    ensures LanguageFromFileName(base + "." + ext + rest) == ext
  {
    var name := base + "." + ext + rest;
    assert name == base + ['.'] + (ext + rest);
    assert name[|base|] == '.';
    SplitAtSeparator(base, ext + rest, '.');
    if rest == "" {
      assert ext + rest == ext;
      SplitNoSeparator(ext, '.');
    } else {
      assert ext + rest == ext + ['.'] + rest[1..];
      SplitAtSeparator(ext, rest[1..], '.');
    }
  }

  /** Every file name of `files` has a `.`, as `languageFromFileName` needs. */
  predicate NamesHaveDot(files: ProjectFiles)
  {
    forall name | name in files :: '.' in name
  }

  /** `views` lists the entries of `files`: one view per entry, in some
      order, each carrying the entry's name, its content and the language
      read off its name. */
  predicate IsViewsOf(files: ProjectFiles, views: seq<FileView>)
    requires NamesHaveDot(files)
  {
    && |views| == |files|
    && (forall i | 0 <= i < |views| ::
          views[i].name in files
          && views[i].content == files[views[i].name]
          && views[i].language == LanguageFromFileName(views[i].name))
    && (forall i, j | 0 <= i < j < |views| :: views[i].name != views[j].name)
    && (forall name | name in files :: exists i | 0 <= i < |views| :: views[i].name == name)
  }

  /** Loop state of `ProjectFilesToFileViews`: `views` lists exactly the
      entries of `files` not left in `rest`, and `rest` is the remainder of `files`. */
  predicate ViewsSoFar(files: ProjectFiles, rest: ProjectFiles, views: seq<FileView>)
    requires NamesHaveDot(files)
  {
    && rest.Keys <= files.Keys
    && (forall name | name in rest :: rest[name] == files[name])
    && |views| + |rest| == |files|
    && (forall i | 0 <= i < |views| ::
          views[i].name in files && views[i].name !in rest
          && views[i].content == files[views[i].name]
          && views[i].language == LanguageFromFileName(views[i].name))
    && (forall i, j | 0 <= i < j < |views| :: views[i].name != views[j].name)
    && (forall name | name in files && name !in rest :: exists i | 0 <= i < |views| :: views[i].name == name)
  }

  /** Moving one entry from `rest` to the end of `views` keeps the loop state. */
  lemma ViewsStep(files: ProjectFiles, rest: ProjectFiles, views: seq<FileView>, name: string)
    requires NamesHaveDot(files) && ViewsSoFar(files, rest, views) && name in rest
    ensures ViewsSoFar(files, rest - {name}, views + [FileView(name, rest[name], LanguageFromFileName(name))])
  {
    var more := views + [FileView(name, rest[name], LanguageFromFileName(name))];
    var less := rest - {name};
    assert |less| == |rest| - 1;
    forall other | other in files && other !in less
      ensures exists i | 0 <= i < |more| :: more[i].name == other
    {
      if other == name {
        assert more[|more| - 1].name == other;
      } else {
        var i :| 0 <= i < |views| && views[i].name == other;
        assert more[i] == views[i];
      }
    }
  }

  /** `ProjectFilesToFileViews`: one view per map entry, appended in the
      map's iteration order, which Go leaves unspecified. */
  method ProjectFilesToFileViews(files: ProjectFiles) returns (views: seq<FileView>)
    requires NamesHaveDot(files)
    ensures IsViewsOf(files, views)
  {
    views := [];
    var rest := files;
    while rest != map[]
      invariant ViewsSoFar(files, rest, views)
      decreases |rest|
    {
      var name :| name in rest;
      ViewsStep(files, rest, views, name);
      views := views + [FileView(name, rest[name], LanguageFromFileName(name))];
      rest := rest - {name};
    }
  }

  /** The content of the first view named `fileName`, or the error
      `<fileName> not found`. */
  function FindContent(views: seq<FileView>, fileName: string): (r: Result<string>)
    ensures r.Ok? <==> exists i | 0 <= i < |views| :: views[i].name == fileName
    ensures r.Ok? ==> exists i | 0 <= i < |views| ::
      views[i].name == fileName && r.value == views[i].content
      && forall j | 0 <= j < i :: views[j].name != fileName
    ensures r.Err? ==> r.error == Message(fileName + " not found")
  {
    if |views| == 0 then Err(Message(fileName + " not found"))
    else if views[0].name == fileName then Ok(views[0].content)
    else
      var r := FindContent(views[1..], fileName);
      assert forall i | 0 <= i < |views[1..]| :: views[1..][i] == views[i + 1];
      assert (exists i | 0 <= i < |views| :: views[i].name == fileName) ==>
        exists i | 0 <= i < |views[1..]| :: views[1..][i].name == fileName;
      r
  }

  /** `GetFileContent`: a linear search that stops at the first match. */
  method GetFileContent(views: seq<FileView>, fileName: string) returns (r: Result<string>)
    ensures r == FindContent(views, fileName)
  {
    for i := 0 to |views|
      invariant FindContent(views, fileName) == FindContent(views[i..], fileName)
    {
      assert views[i..][1..] == views[i + 1..];
      if views[i].name == fileName {
        return Ok(views[i].content);
      }
    }
    return Err(Message(fileName + " not found"));
  }

  /** Looking up any file of a project in its view list gives back its content. */
  lemma LookupAfterViews(files: ProjectFiles, views: seq<FileView>, fileName: string)
    requires NamesHaveDot(files) && IsViewsOf(files, views)
    ensures fileName in files ==> FindContent(views, fileName) == Ok(files[fileName])
    ensures fileName !in files ==> FindContent(views, fileName) == Err(Message(fileName + " not found"))
  {
    if fileName in files {
      var i :| 0 <= i < |views| && views[i].name == fileName;
    }
  }

  /** `FileViewsToProjectFiles`: the map of the views' names to their
      contents; for a repeated name the later view wins. */
  function ViewsToFiles(views: seq<FileView>): (files: ProjectFiles)
    ensures forall i | 0 <= i < |views| :: views[i].name in files
    ensures forall name | name in files :: exists i | 0 <= i < |views| :: views[i].name == name && files[name] == views[i].content
  {
    if |views| == 0 then map[]
    else
      var last := views[|views| - 1];
      var init := ViewsToFiles(views[..|views| - 1]);
      assert forall i | 0 <= i < |views| - 1 :: views[..|views| - 1][i] == views[i];
      init[last.name := last.content]
  }

  /** Converting the views back gives the files they were made from. */
  lemma ViewsRoundTrip(files: ProjectFiles, views: seq<FileView>)
    requires NamesHaveDot(files) && IsViewsOf(files, views)
    ensures ViewsToFiles(views) == files
  {
    var back := ViewsToFiles(views);
    forall name | name in back ensures name in files && back[name] == files[name] {
      var i :| 0 <= i < |views| && views[i].name == name && back[name] == views[i].content;
    }
    forall name | name in files ensures name in back {
      var i :| 0 <= i < |views| && views[i].name == name;
    }
  }

  const DefaultGo: string := "package main\n\nimport (\n\t\"syscall/js\"\n)\n\nfunc main() {\n\tjs.Global().Get(\"alert\").Invoke(\"Hello WASM!\")\n}"
  const DefaultHtml: string := "<h1>Hello World</h1>"
  const DefaultCss: string := "h1 {\n\tcolor: red;\n}"
  const DefaultJs: string := "console.log(\"Hello World\")"
  const DefaultAssemblyScript: string := "export function add(a: i32, b: i32): i32 {\n\treturn a + b;\n}"

  /** The files a new Go project starts with; modules/model/file.go calls this set `DefaultFiles`. */
  const DefaultFilesGo: ProjectFiles :=
    map["main.go" := DefaultGo, "index.html" := DefaultHtml, "styles.css" := DefaultCss, "app.js" := DefaultJs]

  /** The files a new AssemblyScript project starts with. */
  const DefaultFilesAssemblyScript: ProjectFiles :=
    map["index.html" := DefaultHtml, "styles.css" := DefaultCss, "app.js" := DefaultJs, "main.ts" := DefaultAssemblyScript]

  /** The two default sets share the page files and differ only in the
      program: `main.go` for Go, `main.ts` for AssemblyScript. */
  lemma DefaultFileNames()
    ensures DefaultFilesGo.Keys == {"main.go", "index.html", "styles.css", "app.js"}
    ensures DefaultFilesAssemblyScript.Keys == DefaultFilesGo.Keys - {"main.go"} + {"main.ts"}
    ensures forall name | name in DefaultFilesGo && name != "main.go" :: DefaultFilesAssemblyScript[name] == DefaultFilesGo[name]
    ensures NamesHaveDot(DefaultFilesGo) && NamesHaveDot(DefaultFilesAssemblyScript)
  {
    assert "main.go"[4] == '.' && "index.html"[5] == '.' && "styles.css"[6] == '.' && "app.js"[3] == '.' && "main.ts"[4] == '.';
  }
}
