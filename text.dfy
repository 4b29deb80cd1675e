/** The string operations of Go's `strings` and `path` packages that the
    server relies on, for a single-character separator. */
module Text {

  /** `strings.HasPrefix`. */
  predicate HasPrefix(s: string, prefix: string)
  {
    |prefix| <= |s| && s[..|prefix|] == prefix
  }

  /** `strings.TrimPrefix`: drops `prefix` when `s` starts with it. */
  function TrimPrefix(s: string, prefix: string): (r: string)
    ensures HasPrefix(s, prefix) ==> s == prefix + r
    ensures !HasPrefix(s, prefix) ==> r == s
  {
    if HasPrefix(s, prefix) then s[|prefix|..] else s
  }

  predicate OccursAt(s: string, sub: string, i: int)
  {
    0 <= i && i + |sub| <= |s| && s[i..i + |sub|] == sub
  }

  /** `strings.Contains`. */
  predicate Contains(s: string, sub: string)
  {
    exists i | 0 <= i <= |s| - |sub| :: OccursAt(s, sub, i)
  }

  /** `strings.Split(s, string(sep))`: the pieces between the separators;
      one more piece than there are separators. */
  function Split(s: string, sep: char): (r: seq<string>)
    ensures |r| >= 1
    ensures forall i | 0 <= i < |r| :: sep !in r[i]
  {
    if |s| == 0 then [""]
    else if s[0] == sep then [""] + Split(s[1..], sep)
    else
      var rest := Split(s[1..], sep);
      [[s[0]] + rest[0]] + rest[1..]
  }

  /** `strings.Join(parts, string(sep))`. */
  function Join(parts: seq<string>, sep: char): string
  {
    if |parts| == 0 then ""
    else if |parts| == 1 then parts[0]
    else parts[0] + [sep] + Join(parts[1..], sep)
  }

  lemma JoinPrepend(x: string, head: string, rest: seq<string>, sep: char)
    ensures Join([x + head] + rest, sep) == x + Join([head] + rest, sep)
  {
    if |rest| > 0 {
      assert ([x + head] + rest)[1..] == rest;
      assert ([head] + rest)[1..] == rest;
    }
  }

  /** Splitting and joining again gives back the original text. */
  lemma {:induction false} JoinSplit(s: string, sep: char)
    ensures Join(Split(s, sep), sep) == s
  {
    if |s| == 0 {
    } else if s[0] == sep {
      var rest := Split(s[1..], sep);
      JoinSplit(s[1..], sep);
      assert ([""] + rest)[1..] == rest;
      assert s == [sep] + s[1..];
    } else {
      var rest := Split(s[1..], sep);
      JoinSplit(s[1..], sep);
      assert rest == [rest[0]] + rest[1..];
      JoinPrepend([s[0]], rest[0], rest[1..], sep);
      assert s == [s[0]] + s[1..];
    }
  }

  lemma {:induction false} SplitNoSeparator(a: string, sep: char)
    requires sep !in a
    ensures Split(a, sep) == [a]
  {
    if |a| > 0 {
      SplitNoSeparator(a[1..], sep);
      assert a == [a[0]] + a[1..];
    }
  }

  lemma {:induction false} SplitAtSeparator(a: string, b: string, sep: char)
    requires sep !in a
    ensures Split(a + [sep] + b, sep) == [a] + Split(b, sep)
  {
    var s := a + [sep] + b;
    if |a| == 0 {
      assert s[1..] == b;
    } else {
      SplitAtSeparator(a[1..], b, sep);
      assert s[1..] == a[1..] + [sep] + b;
      assert s[0] == a[0];
      assert a == [a[0]] + a[1..];
    }
  }

  /** A text holding the separator splits into at least two pieces. */
  lemma {:induction false} SplitWithSeparator(s: string, sep: char)
    requires sep in s
    ensures |Split(s, sep)| >= 2
  {
    if s[0] != sep {
      assert sep in s[1..] by {
        var i :| 0 <= i < |s| && s[i] == sep;
        assert s[1..][i - 1] == sep;
      }
      SplitWithSeparator(s[1..], sep);
    }
  }

  /** Joining pieces that contain no separator and splitting again gives
      back the pieces. */
  lemma {:induction false} SplitJoin(parts: seq<string>, sep: char)
    requires |parts| >= 1
    requires forall i | 0 <= i < |parts| :: sep !in parts[i]
    ensures Split(Join(parts, sep), sep) == parts
  {
    if |parts| == 1 {
      SplitNoSeparator(parts[0], sep);
    } else {
      SplitJoin(parts[1..], sep);
      SplitAtSeparator(parts[0], Join(parts[1..], sep), sep);
      assert parts == [parts[0]] + parts[1..];
    }
  }

  /** The last `/`-separated segment of a key, `spl[len(spl)-1]` after `strings.Split(key, "/")`. */
  function LastSegment(s: string): string
  {
    if |s| == 0 then ""
    else if s[|s| - 1] == '/' then ""
    else LastSegment(s[..|s| - 1]) + [s[|s| - 1]]
  }

  /** The last segment is a `/`-free suffix of the key, preceded by a `/`
      unless it is the whole key. */
  lemma {:induction false} LastSegmentShape(s: string)
    ensures var r := LastSegment(s);
      && '/' !in r
      && |r| <= |s| && r == s[|s| - |r|..]
      && (|r| < |s| ==> s[|s| - |r| - 1] == '/')
  {
    if |s| > 0 && s[|s| - 1] != '/' {
      var init := s[..|s| - 1];
      LastSegmentShape(init);
      var r := LastSegment(s);
      assert r == LastSegment(init) + [s[|s| - 1]];
      assert init[|init| - |LastSegment(init)|..] + [s[|s| - 1]] == s[|s| - |r|..];
    }
  }

  /** The last segment agrees with the last piece of `strings.Split`. */
  lemma {:induction false} LastSegmentIsLastPiece(s: string)
    ensures var spl := Split(s, '/'); LastSegment(s) == spl[|spl| - 1]
  {
    LastSegmentShape(s);
    var r := LastSegment(s);
    var k := |s| - |r|;
    if k == 0 {
      SplitNoSeparator(s, '/');
    } else {
      assert s == s[..k - 1] + ['/'] + r;
      SplitLastPieceAny(s[..k - 1], r);
    }
  }

  lemma {:induction false} SplitLastPieceAny(a: string, r: string)
    requires '/' !in r
    ensures var spl := Split(a + ['/'] + r, '/'); |spl| >= 2 && spl[|spl| - 1] == r
    decreases |a|
  {
    var s := a + ['/'] + r;
    if |a| == 0 {
      assert s[1..] == r;
      SplitNoSeparator(r, '/');
    } else {
      SplitLastPieceAny(a[1..], r);
      assert s[1..] == a[1..] + ['/'] + r;
    }
  }

  /** The last segment of `dir + "/" + name` is `name` when `name` holds no `/`. */
  lemma {:induction false} LastSegmentOfJoin(dir: string, name: string)
    requires '/' !in name
    ensures LastSegment(dir + "/" + name) == name
    decreases |name|
  {
    var s := dir + "/" + name;
    if |name| > 0 {
      LastSegmentOfJoin(dir, name[..|name| - 1]);
      assert s[..|s| - 1] == dir + "/" + name[..|name| - 1];
      assert name == name[..|name| - 1] + [name[|name| - 1]];
    }
  }

  /** `path.Join` of two segments that are already clean (no `.`, `..` or
      doubled `/`): an empty segment is dropped. */
  function PathJoin(a: string, b: string): (r: string)
    ensures a != "" && b != "" ==> HasPrefix(r, a + "/") && |r| == |a| + 1 + |b|
    ensures a == "" ==> r == b
    ensures b == "" ==> r == a
  {
    if a == "" then b else if b == "" then a else a + "/" + b
  }
}
