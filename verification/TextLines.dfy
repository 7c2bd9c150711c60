/** Splitting text into lines that keep their line breaks, and joining them again. */
module TextLines {
  import opened Prelude

  /** The line breaks of str.splitlines, except the carriage return. */
  predicate IsBreak(c: char) {
    c in {'\n', '\U{0B}', '\U{0C}', '\U{1C}', '\U{1D}', '\U{1E}', '\U{85}', '\U{2028}', '\U{2029}'}
  }

  predicate Closed(line: string) {
    line != "" && IsBreak(line[|line| - 1])
  }

  /** Not empty, and broken at most at its end. */
  predicate IsLine(line: string) {
    line != "" && forall k | 0 <= k < |line| - 1 :: !IsBreak(line[k])
  }

  /** Lines of which only the last may lack its break. */
  ghost predicate AreLines(lines: seq<string>) {
    && (forall i | 0 <= i < |lines| :: IsLine(lines[i]))
    && (forall i | 0 <= i < |lines| - 1 :: Closed(lines[i]))
  }

  function Join(lines: seq<string>): string {
    if lines == [] then "" else Join(lines[..|lines| - 1]) + lines[|lines| - 1]
  }

  /** One more character at the end of the text. */
  function Extend(lines: seq<string>, c: char): seq<string> {
    var n := |lines|;
    if n == 0 || Closed(lines[n - 1]) then lines + [[c]] else lines[..n - 1] + [lines[n - 1] + [c]]
  }

  function SplitLines(text: string): seq<string> {
    if text == "" then [] else Extend(SplitLines(text[..|text| - 1]), text[|text| - 1])
  }

  lemma ExtendedAreLines(lines: seq<string>, c: char)
    requires AreLines(lines)
    ensures AreLines(Extend(lines, c))
  {
    var n := |lines|;
    if n != 0 && !Closed(lines[n - 1]) {
      var line := lines[n - 1];
      assert IsLine(line);
      forall k | 0 <= k < |line| ensures !IsBreak((line + [c])[k]) {
      }
      assert IsLine(line + [c]);
    }
  }

  lemma {:induction false} SplitGivesLines(text: string)
    ensures AreLines(SplitLines(text))
  {
    if text != "" {
      SplitGivesLines(text[..|text| - 1]);
      ExtendedAreLines(SplitLines(text[..|text| - 1]), text[|text| - 1]);
    }
  }

  lemma {:induction false} JoinAppend(lines: seq<string>, line: string)
    ensures Join(lines + [line]) == Join(lines) + line
  {
    assert (lines + [line])[..|lines|] == lines;
  }

  lemma {:induction false} JoinOfSplit(text: string)
    ensures Join(SplitLines(text)) == text
  {
    if text != "" {
      var n := |text| - 1;
      var lines, c := SplitLines(text[..n]), text[n];
      JoinOfSplit(text[..n]);
      assert text == text[..n] + [c];
      var m := |lines|;
      if m == 0 || Closed(lines[m - 1]) {
        JoinAppend(lines, [c]);
      } else {
        JoinAppend(lines[..m - 1], lines[m - 1] + [c]);
        assert lines == lines[..m - 1] + [lines[m - 1]];
        assert Join(lines) == Join(lines[..m - 1]) + lines[m - 1];
      }
    }
  }

  /** A line added to closed lines, character by character. */
  lemma {:induction false} SplitAppend(lines: seq<string>, text: string, line: string)
    requires SplitLines(text) == lines && (lines == [] || Closed(lines[|lines| - 1]))
    requires IsLine(line)
    ensures SplitLines(text + line) == lines + [line]
  {
    var n := |line| - 1;
    var c := line[n];
    assert line == line[..n] + [c];
    assert (text + line)[..|text + line| - 1] == text + line[..n];
    if n == 0 {
      assert text + line[..n] == text;
    } else {
      SplitAppend(lines, text, line[..n]);
      assert !Closed(line[..n]);
      assert (lines + [line[..n]])[..|lines|] == lines;
    }
  }

  lemma {:induction false} SplitOfJoin(lines: seq<string>)
    requires AreLines(lines)
    ensures SplitLines(Join(lines)) == lines
  {
    if lines != [] {
      var n := |lines| - 1;
      SplitOfJoin(lines[..n]);
      SplitAppend(lines[..n], Join(lines[..n]), lines[n]);
      assert lines == lines[..n] + [lines[n]];
    }
  }

  // ----- Dropping lines

  /** Some of the lines, in order. */
  ghost predicate Subsequence(some: seq<string>, lines: seq<string>)
    decreases |lines|
  {
    if lines == [] then some == []
    else
      var n := |lines| - 1;
      Subsequence(some, lines[..n])
      || (some != [] && some[|some| - 1] == lines[n] && Subsequence(some[..|some| - 1], lines[..n]))
  }

  lemma {:induction false} SubsequenceOfSelf(lines: seq<string>)
    ensures Subsequence(lines, lines)
  {
    if lines != [] {
      SubsequenceOfSelf(lines[..|lines| - 1]);
    }
  }

  lemma {:induction false} NothingIsSubsequence(lines: seq<string>)
    ensures Subsequence([], lines)
  {
    if lines != [] {
      NothingIsSubsequence(lines[..|lines| - 1]);
    }
  }

  lemma {:induction false} SubsequenceOfConcat(a: seq<string>, b: seq<string>, c: seq<string>, d: seq<string>)
    requires Subsequence(a, c) && Subsequence(b, d)
    ensures Subsequence(a + b, c + d)
    decreases |d|
  {
    if d == [] {
      assert a + b == a && c + d == c;
    } else {
      var n := |d| - 1;
      assert (c + d)[..|c + d| - 1] == c + d[..n];
      if Subsequence(b, d[..n]) {
        SubsequenceOfConcat(a, b, c, d[..n]);
      } else {
        SubsequenceOfConcat(a, b[..|b| - 1], c, d[..n]);
        assert (a + b)[..|a + b| - 1] == a + b[..|b| - 1];
      }
    }
  }

  lemma {:induction false} SubsequenceElements(some: seq<string>, lines: seq<string>)
    requires Subsequence(some, lines)
    ensures forall x | x in some :: x in lines
    decreases |lines|
  {
    if lines != [] {
      var n := |lines| - 1;
      assert lines == lines[..n] + [lines[n]];
      if Subsequence(some, lines[..n]) {
        SubsequenceElements(some, lines[..n]);
      } else {
        SubsequenceElements(some[..|some| - 1], lines[..n]);
        assert some == some[..|some| - 1] + [some[|some| - 1]];
      }
    }
  }

  /** Lines from which some are dropped are still lines: joined, they split at the same places. */
  lemma {:induction false} SubsequenceAreLines(some: seq<string>, lines: seq<string>)
    requires AreLines(lines) && Subsequence(some, lines)
    ensures AreLines(some)
    decreases |lines|
  {
    if lines != [] {
      var n := |lines| - 1;
      if Subsequence(some, lines[..n]) {
        SubsequenceAreLines(some, lines[..n]);
      } else {
        var rest := some[..|some| - 1];
        SubsequenceAreLines(rest, lines[..n]);
        SubsequenceElements(rest, lines[..n]);
        forall i | 0 <= i < |some| - 1 ensures Closed(some[i]) {
          assert rest[i] in lines[..n];
        }
      }
    }
  }
}
