/** How the compiler backends turn a failed tool run's standard error into
    the error message shown to the user: keep only the lines that mention the
    seed file, and join them back with line breaks. */
module Diagnostics {
  import opened Text

  /** The lines of `lines` that mention `name`, in their original order. */
  function KeptLines(lines: seq<string>, name: string): seq<string>
  {
    if |lines| == 0 then []
    else KeptLines(lines[..|lines| - 1], name) + (if Contains(lines[|lines| - 1], name) then [lines[|lines| - 1]] else [])
  }

  /** A line is kept exactly when it is one of the lines and mentions the name. */
  lemma {:induction false} KeptLinesMembers(lines: seq<string>, name: string)
    ensures forall l :: l in KeptLines(lines, name) <==> l in lines && Contains(l, name)
  {
    if |lines| > 0 {
      KeptLinesMembers(lines[..|lines| - 1], name);
      assert lines == lines[..|lines| - 1] + [lines[|lines| - 1]];
    }
  }

  /** Filtering distributes over concatenation: the kept lines of an earlier
      part of stderr come before those of a later part, so the original
      order is preserved. */
  lemma {:induction false} KeptLinesAppend(a: seq<string>, b: seq<string>, name: string)
    ensures KeptLines(a + b, name) == KeptLines(a, name) + KeptLines(b, name)
  {
    if |b| == 0 {
      assert a + b == a;
    } else {
      KeptLinesAppend(a, b[..|b| - 1], name);
      assert (a + b)[..|a + b| - 1] == a + b[..|b| - 1];
    }
  }

  /** A kept line is a piece of stderr, so it holds no line break. */
  lemma {:induction false} KeptLinesHaveNoBreak(lines: seq<string>, name: string)
    requires forall i | 0 <= i < |lines| :: '\n' !in lines[i]
    ensures forall i | 0 <= i < |KeptLines(lines, name)| :: '\n' !in KeptLines(lines, name)[i]
  {
    KeptLinesMembers(lines, name);
    forall i | 0 <= i < |KeptLines(lines, name)| ensures '\n' !in KeptLines(lines, name)[i] {
      var l := KeptLines(lines, name)[i];
      assert l in KeptLines(lines, name);
      var j :| 0 <= j < |lines| && lines[j] == l;
    }
  }

  /** The loop the backends run over `strings.Split(stderr, "\n")`, appending
      each line that contains the seed file name. */
  method KeepLines(stderr: string, name: string) returns (errs: seq<string>)
    ensures errs == KeptLines(Split(stderr, '\n'), name)
    ensures forall l :: l in errs <==> l in Split(stderr, '\n') && Contains(l, name)
  {
    var lines := Split(stderr, '\n');
    errs := [];
    for i := 0 to |lines|
      invariant errs == KeptLines(lines[..i], name)
    {
      var line := lines[i];
      if Contains(line, name) {
        errs := errs + [line];
      }
      assert lines[..i + 1][..i] == lines[..i];
    }
    assert lines[..|lines|] == lines;
    KeptLinesMembers(lines, name);
  }

  /** The message without a fallback (wasm/tinygo/compile.go): the kept
      lines joined with line breaks, empty when none is kept. */
  function FilteredMessage(stderr: string, name: string): string
  {
    Join(KeptLines(Split(stderr, '\n'), name), '\n')
  }

  /** The message with the fallback of the other backends: the kept lines
      joined with line breaks, or the whole of stderr when none is kept. */
  function MessageWithFallback(stderr: string, name: string): string
  {
    var kept := KeptLines(Split(stderr, '\n'), name);
    if |kept| > 0 then Join(kept, '\n') else stderr
  }

  /** When some line mentions the file, the message splits back into
      exactly the lines that mention it, in their stderr order. */
  lemma FallbackMessageLines(stderr: string, name: string)
    requires exists l | l in Split(stderr, '\n') :: Contains(l, name)
    ensures Split(MessageWithFallback(stderr, name), '\n') == KeptLines(Split(stderr, '\n'), name)
    ensures Split(FilteredMessage(stderr, name), '\n') == KeptLines(Split(stderr, '\n'), name)
  {
    var lines := Split(stderr, '\n');
    KeptLinesMembers(lines, name);
    var l :| l in lines && Contains(l, name);
    assert l in KeptLines(lines, name);
    KeptLinesHaveNoBreak(lines, name);
    SplitJoin(KeptLines(lines, name), '\n');
  }

  /** When no line mentions the file, the fallback message is stderr
      unchanged, while the filtered message is empty. */
  lemma NoMatchingLine(stderr: string, name: string)
    requires forall l | l in Split(stderr, '\n') :: !Contains(l, name)
    ensures MessageWithFallback(stderr, name) == stderr
    ensures FilteredMessage(stderr, name) == ""
  {
    var lines := Split(stderr, '\n');
    KeptLinesMembers(lines, name);
    NothingKept(lines, name);
  }

  lemma {:induction false} NothingKept(lines: seq<string>, name: string)
    requires forall l | l in lines :: !Contains(l, name)
    ensures KeptLines(lines, name) == []
  {
    if |lines| > 0 {
      NothingKept(lines[..|lines| - 1], name);
      assert lines[|lines| - 1] in lines;
    }
  }
}
