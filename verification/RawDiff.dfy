/** The two diff tools on text: what one writes is what the other splits. */
module RawDiff {
  import opened Text
  import opened LineBreaks
  import opened MovedLines
  import opened AddedCoverage

  function Feeds(lines: seq<string>): seq<Ended> {
    seq(|lines|, i requires 0 <= i < |lines| => Ended(lines[i], false))
  }

  /** `strip_moved` on text: a line feed after every line of the output. */
  function StripText(diff: string): string {
    Written(Feeds(Stripped(SplitLines(diff))))
  }

  method StripDiff(diff: string) returns (out: string)
    ensures out == StripText(diff)
  {
    var lines := StripMoved(SplitLines(diff));
    out := Written(Feeds(lines));
  }

  // ----- the output has no breaks inside its lines -----

  ghost predicate CleanPiece(piece: Piece) {
    match piece
    case Copied(header) => Unbroken(header)
    case Kept(_, run) => CleanRun(run)
  }

  ghost predicate CleanRun(run: seq<Add>) {
    forall i :: 0 <= i < |run| ==> Unbroken(run[i].line)
  }

  ghost predicate Clean(f: Filter) {
    CleanRun(f.run) && forall i :: 0 <= i < |f.out| ==> CleanPiece(f.out[i])
  }

  lemma FlushClean(f: Filter)
    requires Clean(f)
    ensures Clean(Flush(f))
  {
    hide Unbroken;
  }

  lemma StepClean(f: Filter, line: string)
    requires Clean(f) && Unbroken(line)
    ensures Clean(Step(f, Lex(line)))
  {
    hide Lex, Unbroken;
    LexFaithful(line);
    FlushClean(f);
  }

  lemma {:induction false} RunClean(f: Filter, lines: seq<string>)
    requires Clean(f) && AllUnbroken(lines)
    ensures Clean(Run(f, Lexed(lines)))
  {
    hide Clean, Unbroken, Lex, Step;
    if lines != [] {
      var k := |lines| - 1;
      assert forall i :: 0 <= i < k ==> lines[..k][i] == lines[i];
      RunClean(f, lines[..k]);
      assert Lexed(lines)[..k] == Lexed(lines[..k]);
      StepClean(Run(f, Lexed(lines[..k])), lines[k]);
    }
  }

  lemma UnbrokenAppend(a: string, b: string)
    ensures Unbroken(a + b) <==> Unbroken(a) && Unbroken(b)
  {
    hide IsBreak;
    var s := a + b;
    assert forall i :: 0 <= i < |a| ==> s[i] == a[i];
    assert forall i :: 0 <= i < |b| ==> s[|a| + i] == b[i];
    assert forall i :: |a| <= i < |s| ==> s[i] == b[i - |a|];
  }

  lemma DigitsAreUnbroken(digits: string)
    requires AllDigits(digits)
    ensures Unbroken(digits)
  {
  }

  lemma HeaderIsUnbroken(start: nat, count: nat)
    ensures Unbroken(HunkHeader(start, count))
  {
    hide Decimal, Unbroken;
    FixedParts();
    DigitsAreUnbroken(Decimal(start));
    DigitsAreUnbroken(Decimal(count));
    var a := "@@ -0,0 +" + Decimal(start);
    UnbrokenAppend("@@ -0,0 +", Decimal(start));
    UnbrokenAppend(a, ",");
    UnbrokenAppend(a + ",", Decimal(count));
    UnbrokenAppend(a + "," + Decimal(count), " @@");
  }

  lemma FixedParts()
    ensures Unbroken("@@ -0,0 +") && Unbroken(",") && Unbroken(" @@")
  {
  }

  lemma {:induction false} PrintClean(pieces: seq<Piece>)
    requires forall i :: 0 <= i < |pieces| ==> CleanPiece(pieces[i])
    ensures AllUnbroken(Print(pieces))
  {
    hide Unbroken, HunkHeader;
    if pieces != [] {
      var k := |pieces| - 1;
      PrintClean(pieces[..k]);
      assert CleanPiece(pieces[k]);
      if pieces[k].Kept? {
        HeaderIsUnbroken(pieces[k].start, |pieces[k].run|);
      }
    }
  }

  lemma StrippedIsUnbroken(lines: seq<string>)
    requires AllUnbroken(lines)
    ensures AllUnbroken(Stripped(lines))
  {
    hide AllUnbroken, Lexed, Run, CleanPiece, Print, Removals;
    var f := Initial(Removals(Lexed(lines)));
    RunClean(f, lines);
    FlushClean(Run(f, Lexed(lines)));
    PrintClean(Pieces(Lexed(lines)));
  }

  lemma LinesOfFeeds(lines: seq<string>)
    ensures LinesOf(Feeds(lines)) == lines
  {
  }

  /** For every text: splitting what the filter wrote gives exactly its output lines. */
  lemma OutputSplitsIntoItsLines(diff: string)
    ensures SplitLines(StripText(diff)) == Stripped(SplitLines(diff))
  {
    hide SplitLines, AllUnbroken, Stripped, LinesOf, Feeds, Written;
    var out := Stripped(SplitLines(diff));
    PiecesAreUnbroken(diff);
    StrippedIsUnbroken(SplitLines(diff));
    LinesOfFeeds(out);
    SplitWritten(Feeds(out));
  }

  /** The filter is idempotent on text, byte for byte. */
  lemma StrippingTextTwiceChangesNothing(diff: string)
    ensures StripText(StripText(diff)) == StripText(diff)
  {
    hide SplitLines, Stripped, Written;
    OutputSplitsIntoItsLines(diff);
    StrippingTwiceChangesNothing(SplitLines(diff));
  }

  /** Both tools on text, whatever the text: per Go production file the scorer reads exactly the
      numbers of the additions that survive, and never fails. */
  lemma ScorerReadsTheTextOfTheFilter(diff: string)
    ensures var tokens := Lexed(SplitLines(diff));
            ScanLines(SplitLines(StripText(diff))) == Expected(Read(START, tokens), Removals(tokens))
  {
    hide SplitLines, Stripped, StripText, Lexed, Read, Expected, ScanLines;
    OutputSplitsIntoItsLines(diff);
    ScorerReadsTheSurvivingNumbers(SplitLines(diff));
  }
}
