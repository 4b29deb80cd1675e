/** Discovery of the functions a Go source file marks for WebAssembly export
    with a `//export <name>` comment (wasm/parse.go).

    Parsing the text into an abstract syntax tree is done by Go's parser and
    is not part of this model: its two products, the comment groups and the
    top-level declarations, are the inputs. Positions are Go's `token.Pos`
    values: a comment's `end` is the position just past its last character,
    so a function that starts at `end + 1` starts right after the comment's
    line break. */
module ExportParse {
  import opened Text

  datatype Comment = Comment(text: string, end: int)

  datatype CommentGroup = CommentGroup(list: seq<Comment>)

  /** A top-level declaration: a function, or any other (import, var, const, type). */
  datatype Decl =
    | FuncDecl(name: string, pos: int)
    | GenDecl(pos: int)

  datatype ExportedFunc = ExportedFunc(decl: Decl, comment: Comment)

  const Marker: string := "//export "

  /** A comment is an export marker when its text starts with `//export `, trailing space included. */
  predicate IsMarker(c: Comment)
  {
    HasPrefix(c.text, Marker)
  }

  /** The pairing rule for a marker and a declaration: a function whose
      name is the rest of the marker and that begins one position after the
      comment ends. */
  predicate Pairs(c: Comment, d: Decl)
  {
    d.FuncDecl? && d.name == TrimPrefix(c.text, Marker) && d.pos == c.end + 1
  }

  /** The markers among `cs`, in order. */
  function MarkerComments(cs: seq<Comment>): seq<Comment>
  {
    if |cs| == 0 then []
    else MarkerComments(cs[..|cs| - 1]) + (if IsMarker(cs[|cs| - 1]) then [cs[|cs| - 1]] else [])
  }

  /** The markers of all groups, group by group. */
  function MarkersOf(groups: seq<CommentGroup>): seq<Comment>
  {
    if |groups| == 0 then []
    else MarkersOf(groups[..|groups| - 1]) + MarkerComments(groups[|groups| - 1].list)
  }

  /** The pairs one marker forms, in declaration order. */
  function Matches(c: Comment, decls: seq<Decl>): seq<ExportedFunc>
  {
    if |decls| == 0 then []
    else Matches(c, decls[..|decls| - 1]) + (if Pairs(c, decls[|decls| - 1]) then [ExportedFunc(decls[|decls| - 1], c)] else [])
  }

  /** The pairs of all markers, marker by marker. */
  function Exports(markers: seq<Comment>, decls: seq<Decl>): seq<ExportedFunc>
  {
    if |markers| == 0 then []
    else Exports(markers[..|markers| - 1], decls) + Matches(markers[|markers| - 1], decls)
  }

  predicate InGroups(c: Comment, groups: seq<CommentGroup>)
  {
    exists g | g in groups :: c in g.list
  }

  lemma {:induction false} MarkerCommentsMembers(cs: seq<Comment>)
    ensures forall x :: x in MarkerComments(cs) <==> x in cs && IsMarker(x)
  {
    if |cs| > 0 {
      MarkerCommentsMembers(cs[..|cs| - 1]);
      assert cs == cs[..|cs| - 1] + [cs[|cs| - 1]];
    }
  }

  /** The collected markers are exactly the comments of the file that start with `//export `. */
  lemma {:induction false} MarkersOfMembers(groups: seq<CommentGroup>)
    ensures forall x :: x in MarkersOf(groups) <==> IsMarker(x) && InGroups(x, groups)
  {
    if |groups| > 0 {
      var init := groups[..|groups| - 1];
      var last := groups[|groups| - 1];
      MarkersOfMembers(init);
      MarkerCommentsMembers(last.list);
      assert groups == init + [last];
      forall x
        ensures InGroups(x, groups) <==> InGroups(x, init) || x in last.list
      {
        if InGroups(x, groups) {
          var g :| g in groups && x in g.list;
          assert g in init || g == last;
        }
      }
    }
  }

  lemma {:induction false} MatchesMembers(c: Comment, decls: seq<Decl>)
    ensures forall e :: e in Matches(c, decls) <==> e.comment == c && e.decl in decls && Pairs(c, e.decl)
  {
    if |decls| > 0 {
      MatchesMembers(c, decls[..|decls| - 1]);
      assert decls == decls[..|decls| - 1] + [decls[|decls| - 1]];
    }
  }

  lemma {:induction false} ExportsMembers(markers: seq<Comment>, decls: seq<Decl>)
    ensures forall e :: e in Exports(markers, decls) <==> e.comment in markers && e.decl in decls && Pairs(e.comment, e.decl)
  {
    if |markers| > 0 {
      var init := markers[..|markers| - 1];
      ExportsMembers(init, decls);
      MatchesMembers(markers[|markers| - 1], decls);
      assert markers == init + [markers[|markers| - 1]];
    }
  }

  /** What `Parse` returns, characterised: a (declaration, comment) pair is
      reported exactly when the comment is one of the file's comments, starts
      with `//export `, and the declaration is a function of the file named by
      the rest of the marker that begins right after the comment. */
  lemma ExportsCharacterised(groups: seq<CommentGroup>, decls: seq<Decl>)
    ensures forall e :: e in Exports(MarkersOf(groups), decls) <==>
      && InGroups(e.comment, groups)
      && IsMarker(e.comment)
      && e.decl in decls
      && e.decl.FuncDecl?
      && e.decl.name == TrimPrefix(e.comment.text, Marker)
      && e.decl.pos == e.comment.end + 1
  {
    MarkersOfMembers(groups);
    ExportsMembers(MarkersOf(groups), decls);
  }

  /** A file without any `//export ` comment exports nothing. */
  lemma {:induction false} NoMarkersNoExports(groups: seq<CommentGroup>, decls: seq<Decl>)
    requires forall g, c | g in groups && c in g.list :: !IsMarker(c)
    ensures Exports(MarkersOf(groups), decls) == []
  {
    NoMarkers(groups);
  }

  lemma {:induction false} NoMarkers(groups: seq<CommentGroup>)
    requires forall g, c | g in groups && c in g.list :: !IsMarker(c)
    ensures MarkersOf(groups) == []
  {
    if |groups| > 0 {
      NoMarkers(groups[..|groups| - 1]);
      NoMarkersInList(groups[|groups| - 1].list);
    }
  }

  lemma {:induction false} NoMarkersInList(cs: seq<Comment>)
    requires forall c | c in cs :: !IsMarker(c)
    ensures MarkerComments(cs) == []
  {
    if |cs| > 0 {
      NoMarkersInList(cs[..|cs| - 1]);
    }
  }

  /** Declarations start at pairwise distinct positions, as they do in a parsed file. */
  predicate DistinctPositions(decls: seq<Decl>)
  {
    forall i, j | 0 <= i < j < |decls| :: decls[i].pos != decls[j].pos
  }

  lemma {:induction false} MatchesAtMostOne(c: Comment, decls: seq<Decl>)
    requires DistinctPositions(decls)
    ensures |Matches(c, decls)| <= 1
    ensures (exists d | d in decls :: Pairs(c, d)) ==> |Matches(c, decls)| == 1
  {
    if |decls| > 0 {
      var init := decls[..|decls| - 1];
      var last := decls[|decls| - 1];
      MatchesAtMostOne(c, init);
      MatchesMembers(c, init);
      assert decls == init + [last];
      if Pairs(c, last) {
        forall d | d in init ensures !Pairs(c, d) {
          var i :| 0 <= i < |init| && init[i] == d;
          assert decls[i] == d;
        }
        NoPairNoMatches(c, init);
      }
    }
  }

  lemma {:induction false} NoPairNoMatches(c: Comment, decls: seq<Decl>)
    requires forall d | d in decls :: !Pairs(c, d)
    ensures Matches(c, decls) == []
  {
    if |decls| > 0 {
      NoPairNoMatches(c, decls[..|decls| - 1]);
    }
  }

  /** When every marker is directly followed by the function it names, there
      are exactly as many exports as markers. */
  lemma {:induction false} OneExportPerMarker(markers: seq<Comment>, decls: seq<Decl>)
    requires DistinctPositions(decls)
    requires forall c | c in markers :: exists d | d in decls :: Pairs(c, d)
    ensures |Exports(markers, decls)| == |markers|
  {
    if |markers| > 0 {
      var init := markers[..|markers| - 1];
      assert forall c | c in init :: c in markers;
      OneExportPerMarker(init, decls);
      assert markers[|markers| - 1] in markers;
      MatchesAtMostOne(markers[|markers| - 1], decls);
    }
  }

  /** wasm/parse.go:21-29: the comment scan, which keeps the markers in file order. */
  method ParseExportedComments(groups: seq<CommentGroup>) returns (markers: seq<Comment>)
    ensures markers == MarkersOf(groups)
    ensures forall x :: x in markers <==> IsMarker(x) && InGroups(x, groups)
  {
    markers := [];
    for g := 0 to |groups|
      invariant markers == MarkersOf(groups[..g])
    {
      var list := groups[g].list;
      for k := 0 to |list|
        invariant markers == MarkersOf(groups[..g]) + MarkerComments(list[..k])
      {
        if HasPrefix(list[k].text, Marker) {
          markers := markers + [list[k]];
        }
        assert list[..k + 1][..k] == list[..k];
      }
      assert list[..|list|] == list;
      assert groups[..g + 1][..g] == groups[..g];
    }
    assert groups[..|groups|] == groups;
    MarkersOfMembers(groups);
  }

  /** wasm/parse.go:40-58: each received marker is tried against every
      declaration, and every pair is sent on in that order. */
  method ParseDecls(markers: seq<Comment>, decls: seq<Decl>) returns (exports: seq<ExportedFunc>)
    ensures exports == Exports(markers, decls)
  {
    exports := [];
    for m := 0 to |markers|
      invariant exports == Exports(markers[..m], decls)
    {
      var comment := markers[m];
      for k := 0 to |decls|
        invariant exports == Exports(markers[..m], decls) + Matches(comment, decls[..k])
      {
        var decl := decls[k];
        if decl.FuncDecl? && decl.name == TrimPrefix(comment.text, Marker) && decl.pos == comment.end + 1 {
          exports := exports + [ExportedFunc(decl, comment)];
        }
        assert decls[..k + 1][..k] == decls[..k];
      }
      assert decls[..|decls|] == decls;
      assert markers[..m + 1][..m] == markers[..m];
    }
    assert markers[..|markers|] == markers;
  }

  /** wasm/parse.go:90-104 with the parse itself taken as input: the
      comment scan feeds the pairing, whose results are collected in the
      order they are produced. */
  method Parse(groups: seq<CommentGroup>, decls: seq<Decl>) returns (exports: seq<ExportedFunc>)
    ensures exports == Exports(MarkersOf(groups), decls)
    ensures forall e | e in exports ::
      && IsMarker(e.comment)
      && e.decl.FuncDecl?
      && e.decl.name == TrimPrefix(e.comment.text, Marker)
      && e.decl.pos == e.comment.end + 1
  {
    var markers := ParseExportedComments(groups);
    exports := ParseDecls(markers, decls);
    ExportsCharacterised(groups, decls);
  }

  /** The file of three adjacent markers before `add`, `sub` and `mul`
      (positions as Go's parser assigns them) gives exactly three exports,
      each pairing a marker with the function it names. */
  lemma ThreeMarkedFunctions()
    ensures |Exports(MarkersOf(ExampleGroups), ExampleDecls)| == 3
  {
    var markers := [Comment("//export add", 27), Comment("//export sub", 82), Comment("//export mul", 137)];
    ExampleMarkers(markers);
    var decls := ExampleDecls;
    MarkerName(markers[0], "add");
    MarkerName(markers[1], "sub");
    MarkerName(markers[2], "mul");
    assert Pairs(markers[0], decls[0]) && Pairs(markers[1], decls[1]) && Pairs(markers[2], decls[2]);
    OneExportPerMarker(markers, decls);
  }

  /** The comment groups of the three-function file. */
  const ExampleGroups: seq<CommentGroup> :=
    [CommentGroup([Comment("//export add", 27)]),
     CommentGroup([Comment("//export sub", 82)]),
     CommentGroup([Comment("//export mul", 137)])]

  /** The declarations of the three-function file, `main` included. */
  const ExampleDecls: seq<Decl> :=
    [FuncDecl("add", 28), FuncDecl("sub", 83), FuncDecl("mul", 138), FuncDecl("main", 180)]

  lemma MarkerName(c: Comment, name: string)
    requires c.text == Marker + name
    ensures IsMarker(c) && TrimPrefix(c.text, Marker) == name
  {
    assert c.text[..|Marker|] == Marker;
  }

  lemma ExampleMarkers(markers: seq<Comment>)
    requires markers == [Comment("//export add", 27), Comment("//export sub", 82), Comment("//export mul", 137)]
    ensures MarkersOf(ExampleGroups) == markers
  {
    var groups := ExampleGroups;
    MarkerName(markers[0], "add");
    MarkerName(markers[1], "sub");
    MarkerName(markers[2], "mul");
    OneMarkerGroup(markers[0]);
    OneMarkerGroup(markers[1]);
    OneMarkerGroup(markers[2]);
    MarkersOfSnoc([], groups[0]);
    MarkersOfSnoc([groups[0]], groups[1]);
    MarkersOfSnoc([groups[0], groups[1]], groups[2]);
    assert [groups[0], groups[1]] + [groups[2]] == groups;
  }

  lemma OneMarkerGroup(c: Comment)
    requires IsMarker(c)
    ensures MarkerComments([c]) == [c]
  {
    assert [c][..0] == [];
  }

  lemma MarkersOfSnoc(groups: seq<CommentGroup>, g: CommentGroup)
    ensures MarkersOf(groups + [g]) == MarkersOf(groups) + MarkerComments(g.list)
  {
    assert (groups + [g])[..|groups|] == groups;
  }

  /** A marker separated from its function by a blank line (the function
      starts later than one position after the comment) is not paired. */
  lemma BlankLineBreaksPairing(groups: seq<CommentGroup>, decls: seq<Decl>, c: Comment, d: Decl)
    requires d.pos != c.end + 1
    ensures ExportedFunc(d, c) !in Exports(MarkersOf(groups), decls)
  {
    ExportsCharacterised(groups, decls);
  }
}
