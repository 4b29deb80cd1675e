/** projects/sharecode.go: share codes, eight letters drawn at random. */
module ShareCode {

  /** `letterRunes`: the lower-case then the upper-case ASCII letters. */
  const LetterRunes: seq<char> :=
    "abcdefg" + "hijklm" + "nopqrs" + "tuvwxyz" + "ABCDEFG" + "HIJKLM" + "NOPQRS" + "TUVWXYZ"

  const CodeLength: nat := 8

  /** A code `generateShareCode` can produce. */
  predicate IsShareCode(code: string)
  {
    |code| == CodeLength && forall i | 0 <= i < |code| :: code[i] in LetterRunes
  }

  predicate IsAsciiLetter(c: char)
  {
    ('a' <= c <= 'z') || ('A' <= c <= 'Z')
  }

  predicate InRange(s: string, lo: char, hi: char)
  {
    forall i | 0 <= i < |s| :: lo <= s[i] <= hi
  }

  lemma InRangeConcat(a: string, b: string, lo: char, hi: char)
    requires InRange(a, lo, hi) && InRange(b, lo, hi)
    ensures InRange(a + b, lo, hi)
  {
    forall i | 0 <= i < |a + b| ensures lo <= (a + b)[i] <= hi {
      if i >= |a| {
        assert (a + b)[i] == b[i - |a|];
      }
    }
  }

  /** The alphabet has 52 characters, all ASCII letters, so a code holds
      no digit or other character. */
  lemma AlphabetIsLetters()
    ensures |LetterRunes| == 52
    ensures forall i | 0 <= i < |LetterRunes| :: IsAsciiLetter(LetterRunes[i])
  {
    var lower := "abcdefg" + "hijklm" + "nopqrs" + "tuvwxyz";
    var upper := "ABCDEFG" + "HIJKLM" + "NOPQRS" + "TUVWXYZ";
    assert InRange("abcdefg", 'a', 'z') && InRange("hijklm", 'a', 'z') && InRange("nopqrs", 'a', 'z') && InRange("tuvwxyz", 'a', 'z');
    InRangeConcat("abcdefg", "hijklm", 'a', 'z');
    InRangeConcat("abcdefg" + "hijklm", "nopqrs", 'a', 'z');
    InRangeConcat("abcdefg" + "hijklm" + "nopqrs", "tuvwxyz", 'a', 'z');
    assert InRange("ABCDEFG", 'A', 'Z') && InRange("HIJKLM", 'A', 'Z') && InRange("NOPQRS", 'A', 'Z') && InRange("TUVWXYZ", 'A', 'Z');
    InRangeConcat("ABCDEFG", "HIJKLM", 'A', 'Z');
    InRangeConcat("ABCDEFG" + "HIJKLM", "NOPQRS", 'A', 'Z');
    InRangeConcat("ABCDEFG" + "HIJKLM" + "NOPQRS", "TUVWXYZ", 'A', 'Z');
    assert LetterRunes == lower + upper;
    forall i | 0 <= i < |LetterRunes| ensures IsAsciiLetter(LetterRunes[i]) {
      if i < |lower| {
        assert LetterRunes[i] == lower[i];
      } else {
        assert LetterRunes[i] == upper[i - |lower|];
      }
    }
  }

  /** `generateShareCode`: fills an eight-slot buffer, slot by slot, with
      the letter at an index `rand.Intn(52)` picks; the choice is left open
      within that range. */
  method GenerateShareCode() returns (code: string)
    ensures IsShareCode(code)
  {
    var b := new char[CodeLength];
    for i := 0 to b.Length
      invariant forall j | 0 <= j < i :: b[j] in LetterRunes
    {
      var k :| 0 <= k < |LetterRunes|;
      b[i] := LetterRunes[k];
    }
    code := b[..];
  }

  /** Every code is made of ASCII letters only. */
  lemma CodesAreLetters(code: string)
    requires IsShareCode(code)
    ensures forall i | 0 <= i < |code| :: IsAsciiLetter(code[i])
  {
    AlphabetIsLetters();
  }
}
