/** model/project.go: the project record, its client view, and the project
    language, stored as an index into the table of language names. */
module ProjectModel {
  import opened Files

  /** `langs`: the language names, indexed by `ProjectLanguage`. */
  const Langs: seq<string> := ["Go", "AssemblyScript"]

  const LanguageGo: int := 0
  const LanguageAssemblyScript: int := 1

  /** A language value that `String` can render. */
  predicate ValidLanguage(l: int)
  {
    0 <= l < |Langs|
  }

  /** The position of the first occurrence of `name` in `names`, if any. */
  function IndexOf(names: seq<string>, name: string): (i: int)
    ensures i == -1 <==> name !in names
    ensures i != -1 ==> 0 <= i < |names| && names[i] == name && forall j | 0 <= j < i :: names[j] != name
  {
    if |names| == 0 then -1
    else if names[0] == name then 0
    else
      var i := IndexOf(names[1..], name);
      assert forall j | 0 <= j < |names| - 1 :: names[1..][j] == names[j + 1];
      assert name in names ==> name == names[0] || name in names[1..];
      if i == -1 then -1 else i + 1
  }

  /** What `GetProjectLanguage` answers: the index of the name in the
      table, and `LanguageGo` for any name that is not there. */
  function LanguageNamed(name: string): (l: int)
    ensures ValidLanguage(l)
    ensures name in Langs ==> Langs[l] == name
    ensures name !in Langs ==> l == LanguageGo
  {
    var i := IndexOf(Langs, name);
    if i == -1 then LanguageGo else i
  }

  /** `GetProjectLanguage`: a search of the table that returns at the first match. */
  method GetProjectLanguage(name: string) returns (l: int)
    ensures l == LanguageNamed(name)
  {
    for i := 0 to |Langs|
      invariant name !in Langs[..i]
    {
      if Langs[i] == name {
        assert Langs[..i + 1] == Langs[..i] + [name];
        return i;
      }
      assert Langs[..i + 1] == Langs[..i] + [Langs[i]];
    }
    assert Langs[..|Langs|] == Langs;
    return LanguageGo;
  }

  /** `ProjectLanguage.String`: the name at that index; other values are
      outside the table and make the source panic. */
  function String(l: int): (name: string)
    requires ValidLanguage(l)
    ensures name in Langs
  {
    Langs[l]
  }

  /** Rendering a language and reading it back gives the language again,
      and each listed name survives the opposite trip. */
  lemma LanguageRoundTrip(l: int, name: string)
    requires ValidLanguage(l)
    ensures LanguageNamed(String(l)) == l
    ensures name in Langs ==> String(LanguageNamed(name)) == name
  {
    assert Langs[0] != Langs[1];
  }

  /** The two named languages, and the fallback for every other name. */
  lemma KnownLanguages(name: string)
    ensures LanguageNamed("Go") == LanguageGo && String(LanguageGo) == "Go"
    ensures LanguageNamed("AssemblyScript") == LanguageAssemblyScript && String(LanguageAssemblyScript) == "AssemblyScript"
    ensures name != "Go" && name != "AssemblyScript" ==> LanguageNamed(name) == LanguageGo
  {
    assert Langs[0] == "Go" && Langs[1] == "AssemblyScript";
  }

  /** `sql.NullString`: a text and whether it is set (a NULL column when not). */
  datatype NullString = NullString(text: string, valid: bool)

  const Null: NullString := NullString("", false)

  /** `Project`: the stored record. `CreatedAt` is a timestamp the store sets. */
  datatype Project = Project(
    id: string,
    createdAt: int,
    name: string,
    userId: string,
    language: int,
    isShared: bool,
    shareCode: NullString)

  /** `ProjectView`: what clients see of a project. */
  datatype ProjectView = ProjectView(
    id: string,
    createdAt: int,
    name: string,
    userId: string,
    files: seq<FileView>,
    wasmPath: string,
    language: string,
    shareCode: string)

  /** `View`: the record's identity, name and owner; the language by its
      name, so that reading the name back gives the record's language; the
      share code's text (empty when unset); no files and no wasm path. */
  function View(p: Project): (v: ProjectView)
    requires ValidLanguage(p.language)
    ensures v.id == p.id && v.createdAt == p.createdAt && v.name == p.name && v.userId == p.userId
    ensures v.language == String(p.language) && LanguageNamed(v.language) == p.language
    ensures v.shareCode == p.shareCode.text
    ensures v.files == [] && v.wasmPath == ""
  {
    LanguageRoundTrip(p.language, "");
    ProjectView(p.id, p.createdAt, p.name, p.userId, [], "", String(p.language), p.shareCode.text)
  }

  /** `ViewWithFiles`: the view with the files listed. */
  method ViewWithFiles(p: Project, files: ProjectFiles) returns (v: ProjectView)
    requires ValidLanguage(p.language) && NamesHaveDot(files)
    ensures v == View(p).(files := v.files)
    ensures IsViewsOf(files, v.files)
  {
    v := View(p);
    var views := ProjectFilesToFileViews(files);
    v := v.(files := views);
  }

  /** `ViewWith`: the view with the files listed and the wasm path set. */
  method ViewWith(p: Project, wasmPath: string, files: ProjectFiles) returns (v: ProjectView)
    requires ValidLanguage(p.language) && NamesHaveDot(files)
    ensures v == View(p).(files := v.files, wasmPath := wasmPath)
    ensures IsViewsOf(files, v.files)
  {
    v := ViewWithFiles(p, files);
    v := v.(wasmPath := wasmPath);
  }

  /** `NewProject`: the given name, owner and language, a fresh id (drawn by
      `NewID`, here an input), not shared and with no share code. */
  function NewProject(name: string, userId: string, language: int, id: string): (p: Project)
    ensures p.name == name && p.userId == userId && p.language == language && p.id == id
    ensures !p.isShared && !p.shareCode.valid
    ensures ValidLanguage(language) ==> View(p).shareCode == ""
  {
    Project(id, 0, name, userId, language, false, Null)
  }
}
