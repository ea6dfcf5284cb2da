/** Python's `splitlines`, and text written line by line. */
module LineBreaks {

  /** Every character `splitlines` divides at. */
  predicate IsBreak(c: char) {
    var n := c as int;
    0x0A <= n <= 0x0D || 0x1C <= n <= 0x1E || n == 0x85 || n == 0x2028 || n == 0x2029
  }

  predicate Unbroken(line: string) {
    forall i :: 0 <= i < |line| ==> !IsBreak(line[i])
  }

  predicate AllUnbroken(lines: seq<string>) {
    forall i :: 0 <= i < |lines| ==> Unbroken(lines[i])
  }

  /** The length of the longest prefix without a break. */
  function BreakAt(s: string): (n: nat)
    ensures n <= |s| && Unbroken(s[..n])
    ensures n < |s| ==> IsBreak(s[n])
  {
    if s != [] && !IsBreak(s[0]) then
      var n := 1 + BreakAt(s[1..]);
      assert s[..n] == [s[0]] + s[1..][..n - 1];
      n
    else 0
  }

  /** A carriage return and the line feed behind it are one break. */
  function BreakLength(s: string, n: nat): (length: nat)
    requires n < |s|
    ensures 1 <= length && n + length <= |s|
  {
    if s[n] == '\r' && n + 1 < |s| && s[n + 1] == '\n' then 2 else 1
  }

  function SplitLines(s: string): seq<string>
    decreases |s|
  {
    if s == [] then [] else
    var n := BreakAt(s);
    if n == |s| then [s] else [s[..n]] + SplitLines(s[n + BreakLength(s, n)..])
  }

  lemma {:induction false} PiecesAreUnbroken(s: string)
    ensures AllUnbroken(SplitLines(s))
    decreases |s|
  {
    if s != [] {
      var n := BreakAt(s);
      if n == |s| {
        assert s[..n] == s;
      } else {
        PiecesAreUnbroken(s[n + BreakLength(s, n)..]);
      }
    }
  }

  // ----- lines with their endings -----

  datatype Ended = Ended(line: string, crlf: bool)

  function Ending(ended: Ended): string {
    if ended.crlf then "\r\n" else "\n"
  }

  function Written(lines: seq<Ended>): string {
    if lines == [] then [] else lines[0].line + Ending(lines[0]) + Written(lines[1..])
  }

  function LinesOf(lines: seq<Ended>): seq<string> {
    seq(|lines|, i requires 0 <= i < |lines| => lines[i].line)
  }

  lemma {:induction false} BreakAtEnd(line: string, rest: string)
    requires Unbroken(line) && rest != [] && IsBreak(rest[0])
    ensures BreakAt(line + rest) == |line|
  {
    if line == [] {
      assert line + rest == rest;
    } else {
      assert (line + rest)[1..] == line[1..] + rest;
      BreakAtEnd(line[1..], rest);
    }
  }

  lemma SplitFirst(ended: Ended, rest: string)
    requires Unbroken(ended.line)
    ensures SplitLines(ended.line + Ending(ended) + rest) == [ended.line] + SplitLines(rest)
  {
    var line, tail := ended.line, Ending(ended) + rest;
    var s := ended.line + Ending(ended) + rest;
    assert s == line + tail;
    assert tail[0] == Ending(ended)[0];
    BreakAtEnd(line, tail);
    assert s[..|line|] == line;
    assert s[|line|] == tail[0];
    if ended.crlf {
      assert s[|line| + 1] == tail[1] == '\n';
      assert s[|line| + 2..] == rest;
    } else {
      assert s[|line| + 1..] == rest;
    }
  }

  lemma {:induction false} SplitWritten(lines: seq<Ended>)
    requires AllUnbroken(LinesOf(lines))
    ensures SplitLines(Written(lines)) == LinesOf(lines)
  {
    hide SplitLines, Ending, Unbroken;
    if lines == [] {
      SplitNothing();
    } else {
      assert LinesOf(lines)[0] == lines[0].line;
      assert LinesOf(lines) == [lines[0].line] + LinesOf(lines[1..]);
      assert forall i :: 0 <= i < |lines| - 1 ==> LinesOf(lines[1..])[i] == LinesOf(lines)[i + 1];
      SplitWritten(lines[1..]);
      SplitFirst(lines[0], Written(lines[1..]));
    }
  }

  lemma SplitNothing()
    ensures SplitLines([]) == []
  {
  }

  /** Splitting gives back the lines that were written exactly when none has a break inside. */
  lemma SplittingRecoversIff(lines: seq<Ended>)
    ensures SplitLines(Written(lines)) == LinesOf(lines) <==> AllUnbroken(LinesOf(lines))
  {
    hide SplitLines, LinesOf, Unbroken;
    PiecesAreUnbroken(Written(lines));
    if AllUnbroken(LinesOf(lines)) {
      SplitWritten(lines);
    }
  }
}
