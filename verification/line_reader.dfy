/**
 * How `BufReader::lines` cuts the bytes of a file into lines, as both tail
 * readers use it: every '\n' ends a line and is dropped, together with one
 * '\r' just before it; whatever follows the last '\n' is returned as a final
 * line as it stands.
 */
module LineReader {

  /** The index of the first '\n' in `s`, or `|s|` when there is none. */
  function NewlineIndex(s: string): (k: nat)
    ensures k <= |s|
    ensures k < |s| ==> s[k] == '\n'
  {
    if s == [] then 0
    else if s[0] == '\n' then 0
    else 1 + NewlineIndex(s[1..])
  }

  /** No '\n' comes before the one `NewlineIndex` finds. */
  lemma {:induction false} NewlineIndexIsFirst(s: string)
    ensures forall j :: 0 <= j < NewlineIndex(s) ==> s[j] != '\n'
  {
    if s != [] && s[0] != '\n' {
      NewlineIndexIsFirst(s[1..]);
    }
  }

  /** `line` without one trailing '\r'. */
  function StripCr(line: string): string
  {
    if |line| > 0 && line[|line| - 1] == '\r' then line[..|line| - 1] else line
  }

  /**
   * One call of `next_line` on the non-empty rest `s` of the file: the line
   * it returns and what is left after it.
   */
  function NextLine(s: string): (r: (string, string))
    requires s != []
    ensures |r.1| < |s|
  {
    var k := NewlineIndex(s);
    if k == |s| then (s, [])
    else (StripCr(s[..k]), s[k + 1..])
  }

  /** Every line `BufReader::lines` returns for the bytes `s`, in order. */
  function Lines(s: string): seq<string>
    decreases |s|
  {
    if s == [] then []
    else [NextLine(s).0] + Lines(NextLine(s).1)
  }

  /**
   * The `while let` loop that pulls lines until end of file and pushes each
   * one onto the result.
   */
  method ReadLines(s: string) returns (res: seq<string>)
    ensures res == Lines(s)
  {
    res := [];
    var rest := s;
    while rest != []
      invariant res + Lines(rest) == Lines(s)
      decreases |rest|
    {
      var (line, tail) := NextLine(rest);
      res := res + [line];
      rest := tail;
    }
  }

  /** The number of '\n' in `s`. */
  function NewlineCount(s: string): nat
  {
    if s == [] then 0 else (if s[0] == '\n' then 1 else 0) + NewlineCount(s[1..])
  }

  /** `s` is empty or its last byte is a '\n'. */
  predicate EndsAtLineBoundary(s: string)
  {
    s == [] || s[|s| - 1] == '\n'
  }

  /** The lines written back, each followed by '\n'. */
  function Terminated(lines: seq<string>): string
  {
    if lines == [] then [] else lines[0] + "\n" + Terminated(lines[1..])
  }

  lemma {:induction false} NewlineCountAppend(a: string, b: string)
    ensures NewlineCount(a + b) == NewlineCount(a) + NewlineCount(b)
  {
    if a != [] {
      assert (a + b)[0] == a[0];
      assert (a + b)[1..] == a[1..] + b;
      NewlineCountAppend(a[1..], b);
    } else {
      assert a + b == b;
    }
  }

  lemma {:induction false} NewlineCountNone(s: string)
    requires forall j :: 0 <= j < |s| ==> s[j] != '\n'
    ensures NewlineCount(s) == 0
  {
    if s != [] {
      NewlineCountNone(s[1..]);
    }
  }

  /** `NewlineIndex` is determined by where the first '\n' stands. */
  lemma NewlineIndexIs(s: string, k: nat)
    requires k <= |s|
    requires k < |s| ==> s[k] == '\n'
    requires forall j :: 0 <= j < k ==> s[j] != '\n'
    ensures NewlineIndex(s) == k
  {
    NewlineIndexIsFirst(s);
  }

  /** A non-empty read always yields at least one line. */
  lemma LinesNonEmpty(s: string)
    requires s != []
    ensures |Lines(s)| >= 1
  {
  }

  /** The line `next_line` returns holds no '\n'. */
  lemma NextLineHasNoNewline(s: string)
    requires s != []
    ensures '\n' !in NextLine(s).0
  {
    var k := NewlineIndex(s);
    NewlineIndexIsFirst(s);
    var line := NextLine(s).0;
    assert |line| <= k;
    forall j | 0 <= j < |line| ensures line[j] != '\n' {
      assert line[j] == s[j];
    }
  }

  /** No returned line holds a '\n'. */
  lemma {:induction false} LinesHaveNoNewline(s: string)
    ensures forall i :: 0 <= i < |Lines(s)| ==> '\n' !in Lines(s)[i]
    decreases |s|
  {
    if s != [] {
      NextLineHasNoNewline(s);
      LinesHaveNoNewline(NextLine(s).1);
    }
  }

  /**
   * One line per '\n', plus one for an unterminated fragment at the end:
   * nothing is dropped and nothing is invented.
   */
  lemma {:induction false} LinesCount(s: string)
    ensures |Lines(s)| == NewlineCount(s) + (if EndsAtLineBoundary(s) then 0 else 1)
    decreases |s|
  {
    if s != [] {
      var k := NewlineIndex(s);
      NewlineIndexIsFirst(s);
      assert s == s[..k] + s[k..];
      NewlineCountAppend(s[..k], s[k..]);
      NewlineCountNone(s[..k]);
      if k == |s| {
        assert s[|s| - 1] != '\n';
        assert Lines(s) == [s] + Lines([]);
      } else {
        var rest := s[k + 1..];
        assert s[k..] == [s[k]] + rest;
        NewlineCountAppend([s[k]], rest);
        LinesStep(s, k);
        LinesCount(rest);
        assert EndsAtLineBoundary(rest) == EndsAtLineBoundary(s) by {
          if rest != [] { assert rest[|rest| - 1] == s[|s| - 1]; }
        }
      }
    }
  }

  lemma AppendSlices(a: string, b: string, i: nat)
    requires i <= |a|
    ensures (a + b)[..i] == a[..i]
    ensures (a + b)[i..] == a[i..] + b
  {
  }

  /** One step of `Lines` on text whose first '\n' stands at `k`. */
  lemma LinesStep(s: string, k: nat)
    requires k < |s| && NewlineIndex(s) == k
    ensures Lines(s) == [StripCr(s[..k])] + Lines(s[k + 1..])
  {
  }

  /**
   * Reading `a` and then `b` separately yields the lines of reading `a + b`
   * at once, provided the first read stopped right after a '\n'.
   */
  lemma {:induction false} NewlineIndexAppend(a: string, b: string)
    requires NewlineIndex(a) < |a|
    ensures NewlineIndex(a + b) == NewlineIndex(a)
  {
    var k := NewlineIndex(a);
    NewlineIndexIsFirst(a);
    forall j | 0 <= j < k ensures (a + b)[j] != '\n' {
      assert (a + b)[j] == a[j];
    }
    assert (a + b)[k] == a[k];
    NewlineIndexIs(a + b, k);
  }

  /** One step of `Lines` on `a + b` when `a` holds a '\n' at `k`. */
  lemma LinesStepAppend(a: string, b: string, k: nat)
    requires k < |a| && NewlineIndex(a + b) == k
    ensures Lines(a + b) == [StripCr(a[..k])] + Lines(a[k + 1..] + b)
  {
    AppendSlices(a, b, k);
    AppendSlices(a, b, k + 1);
    LinesStep(a + b, k);
  }

  /** Text that ends at a line boundary has a first '\n', and so does what follows it. */
  lemma FirstLineBreak(a: string) returns (k: nat)
    requires a != [] && EndsAtLineBoundary(a)
    ensures k < |a| && NewlineIndex(a) == k
    ensures EndsAtLineBoundary(a[k + 1..])
  {
    k := NewlineIndex(a);
    NewlineIndexIsFirst(a);
    assert a[|a| - 1] == '\n';
    var rest := a[k + 1..];
    if rest != [] {
      assert rest[|rest| - 1] == a[|a| - 1];
    }
  }

  lemma {:induction false} LinesAppend(a: string, b: string)
    requires EndsAtLineBoundary(a)
    ensures Lines(a + b) == Lines(a) + Lines(b)
    decreases |a|
  {
    if a != [] {
      var k := FirstLineBreak(a);
      NewlineIndexAppend(a, b);
      LinesStepAppend(a, b, k);
      LinesStep(a, k);
      LinesAppend(a[k + 1..], b);
    } else {
      assert a + b == b;
    }
  }

  /** `s` holds no '\r'. */
  predicate NoCr(s: string)
  {
    forall j :: 0 <= j < |s| ==> s[j] != '\r'
  }

  /**
   * For text without '\r', writing the lines back with a '\n' after each
   * restores exactly the bytes that were read, plus the '\n' an unterminated
   * final fragment lacked.
   */
  lemma {:induction false} LinesRoundTrip(s: string)
    requires NoCr(s)
    ensures Terminated(Lines(s)) == s + (if EndsAtLineBoundary(s) then "" else "\n")
    decreases |s|
  {
    if s != [] {
      var k := NewlineIndex(s);
      if k == |s| {
        LastLineRoundTrip(s);
      } else {
        var rest := s[k + 1..];
        FirstLineSplit(s, k);
        FirstLineTerminated(s, k);
        LinesRoundTrip(rest);
      }
    }
  }

  /** The round trip for text holding no '\n'. */
  lemma LastLineRoundTrip(s: string)
    requires s != [] && NewlineIndex(s) == |s|
    ensures Terminated(Lines(s)) == s + "\n"
    ensures !EndsAtLineBoundary(s)
  {
    NewlineIndexIsFirst(s);
    assert Lines(s) == [s] + Lines([]);
    assert Terminated([s]) == s + "\n" + Terminated([]);
  }

  /** What follows the first '\n' keeps the last byte and holds no new '\r'. */
  lemma FirstLineSplit(s: string, k: nat)
    requires NoCr(s)
    requires k < |s| && s[k] == '\n'
    ensures NoCr(s[k + 1..])
    ensures EndsAtLineBoundary(s[k + 1..]) == EndsAtLineBoundary(s)
    ensures s == s[..k] + "\n" + s[k + 1..]
  {
    var rest := s[k + 1..];
    forall j | 0 <= j < |rest| ensures rest[j] != '\r' {
      assert rest[j] == s[k + 1 + j];
    }
    if rest != [] {
      assert rest[|rest| - 1] == s[|s| - 1];
    }
  }

  /** Without '\r', the first line is written back followed by its '\n'. */
  lemma FirstLineTerminated(s: string, k: nat)
    requires NoCr(s)
    requires k < |s| && NewlineIndex(s) == k
    ensures Terminated(Lines(s)) == s[..k] + "\n" + Terminated(Lines(s[k + 1..]))
  {
    var line := s[..k];
    assert StripCr(line) == line by {
      if |line| > 0 { assert line[|line| - 1] == s[k - 1]; }
    }
    LinesStep(s, k);
  }

  /** A "\r\n" terminator is removed whole; a bare final fragment is kept. */
  lemma CrLfExample()
    ensures Lines("a\r\nb") == ["a", "b"]
    ensures Lines("L1\nL2\n") == ["L1", "L2"]
  {
    NewlineIndexIs("a\r\nb", 2);
    NewlineIndexIs("b", 1);
    assert "a\r\nb"[..2] == "a\r";
    assert StripCr("a\r") == "a";
    assert "a\r\nb"[3..] == "b";
    assert Lines("b") == ["b"] + Lines([]);
    assert Lines("a\r\nb") == ["a"] + Lines("b");
    NewlineIndexIs("L1\nL2\n", 2);
    NewlineIndexIs("L2\n", 2);
    assert "L1\nL2\n"[..2] == "L1";
    assert "L1\nL2\n"[3..] == "L2\n";
    assert "L2\n"[..2] == "L2";
    assert "L2\n"[3..] == [];
    assert Lines("L2\n") == ["L2"] + Lines([]);
    assert Lines("L1\nL2\n") == ["L1"] + Lines("L2\n");
  }
}
