/** The first half of `score`: reads a stripped diff back into the added lines of each Go
    production file. */
module AddedCoverage {
  import opened Text
  import opened MovedLines

  // ----- how the scorer reads a diff line -----

  datatype Mark = File(path: string) | Range(start: nat, count: nat) | Malformed | Skip

  /** `\+(\d+)(?:,(\d+))?` searched in a line: the first `+` with a digit behind it. */
  function SearchRange(line: string): Option<(nat, nat)> {
    if line == "" then None
    else if line[0] == '+' && DigitRun(line[1..]) > 0 then
      var d := DigitRun(line[1..]);
      Some((Value(line[1..][..d]), GroupCount(line[1..][d..])))
    else SearchRange(line[1..])
  }

  /** The optional `,digits` group, one when absent. */
  function GroupCount(s: string): nat {
    if StartsWith(s, ",") && DigitRun(s[1..]) > 0 then Value(s[1..][..DigitRun(s[1..])]) else 1
  }

  function HeaderPath(line: string): Option<string> {
    if StartsWith(line, "+++ b/") then Some(line[6..]) else None
  }

  function MarkOf(line: string): Mark {
    if HeaderPath(line).Some? then File(HeaderPath(line).value)
    else if StartsWith(line, "@@") then
      match SearchRange(line)
      case Some((start, count)) => Range(start, count)
      case None => Malformed
    else Skip
  }

  predicate GoProduction(path: string) {
    EndsWith(path, ".go") && !EndsWith(path, "_test.go")
  }

  datatype Scan = Raised | Scan(added: map<string, set<nat>>, current: Option<string>)

  /** `range(start, start + count)` as a set. */
  function Numbers(start: nat, count: nat): (numbers: set<nat>)
    ensures forall n: nat :: n in numbers <==> start <= n < start + count
  {
    if count == 0 then {} else Numbers(start, count - 1) + {start + count - 1}
  }

  function Scored(path: Option<string>): Option<string> {
    if path.Some? && GoProduction(path.value) then path else None
  }

  function ScanStep(s: Scan, mark: Mark): (s': Scan)
    requires s.Scan? && s.current.Some? ==> s.current.value in s.added
    ensures s'.Scan? && s'.current.Some? ==> s'.current.value in s'.added
  {
    if s.Raised? then s else
    match mark
    case File(path) =>
      if Scored(Some(path)).Some?
      then Scan(s.added[path := if path in s.added then s.added[path] else {}], Some(path))
      else s.(current := None)
    case Range(start, count) =>
      if s.current.Some?
      then s.(added := s.added[s.current.value := s.added[s.current.value] + Numbers(start, count)])
      else s
    case Malformed => if s.current.Some? then Raised else s
    case Skip => s
  }

  function ScanLines(lines: seq<string>): (s: Scan)
    ensures s.Scan? && s.current.Some? ==> s.current.value in s.added
  {
    if lines == [] then Scan(map[], None)
    else ScanStep(ScanLines(lines[..|lines| - 1]), MarkOf(lines[|lines| - 1]))
  }

  /** The first loop of `score`, filling the dictionary in place. */
  method ReadAdded(lines: seq<string>) returns (ok: bool, added: map<string, set<nat>>)
    ensures ok == ScanLines(lines).Scan?
    ensures ok ==> added == ScanLines(lines).added
  {
    added := map[];
    var current: Option<string> := None;
    for i := 0 to |lines|
      invariant ScanLines(lines[..i]) == Scan(added, current)
    {
      assert lines[..i + 1][..i] == lines[..i];
      match MarkOf(lines[i])
      case File(path) =>
        current := None;
        if GoProduction(path) {
          current := Some(path);
          if path !in added {
            added := added[path := {}];
          }
          assert added[path := added[path]] == added;
        }
      case Range(start, count) =>
        if current.Some? {
          added := added[current.value := added[current.value] + Numbers(start, count)];
        }
      case Malformed =>
        if current.Some? {
          RaisedStays(lines, i + 1);
          return false, map[];
        }
      case Skip =>
    }
    assert lines[..|lines|] == lines;
    ok := true;
  }

  lemma {:induction false} RaisedStays(lines: seq<string>, i: nat)
    requires i <= |lines| && ScanLines(lines[..i]).Raised?
    ensures ScanLines(lines).Raised?
    decreases |lines| - i
  {
    hide MarkOf;
    if i == |lines| {
      assert lines[..i] == lines;
    } else {
      assert lines[..i + 1][..i] == lines[..i];
      RaisedStays(lines, i + 1);
    }
  }

  // ----- where each addition really is -----

  datatype Located = Located(path: Option<string>, number: nat, add: Add)

  /** A plain reading of the unstripped diff: the file and new-file number of each addition. */
  datatype Reading = Reading(path: Option<string>, lineno: nat, adds: seq<Located>, files: set<string>)

  function ReadStep(r: Reading, token: Token): Reading {
    match token
    case Header(line) =>
      (match HeaderPath(line)
       case Some(path) => r.(path := Some(path), files := r.files + {path})
       case None => r)
    case Hunk(start) => r.(lineno := start)
    case Added(add) => r.(adds := r.adds + [Located(r.path, r.lineno, add)], lineno := r.lineno + 1)
    case _ => r
  }

  function Read(r: Reading, tokens: seq<Token>): Reading {
    if tokens == [] then r else ReadStep(Read(r, tokens[..|tokens| - 1]), tokens[|tokens| - 1])
  }

  const START := Reading(None, 0, [], {})

  function Adds(located: seq<Located>): seq<Add> {
    seq(|located|, i requires 0 <= i < |located| => located[i].add)
  }

  /** The numbers of the surviving additions of one file. */
  ghost function SurvivingNumbers(located: seq<Located>, removed: multiset<string>, path: string): set<nat> {
    set k: nat | k < |located| && Survives(Adds(located), k, removed) && located[k].path == Some(path)
      :: located[k].number
  }

  /** What the scorer ought to hold after reading the stripped diff. */
  ghost function Expected(r: Reading, removed: multiset<string>): Scan {
    Scan(map path | path in r.files && GoProduction(path) :: SurvivingNumbers(r.adds, removed, path), Scored(r.path))
  }

  // ----- printer and parser agree, piece by piece -----

  function ScanPiece(s: Scan, piece: Piece): (s': Scan)
    requires s.Scan? && s.current.Some? ==> s.current.value in s.added
    ensures s'.Scan? && s'.current.Some? ==> s'.current.value in s'.added
  {
    match piece
    case Copied(header) => ScanStep(s, MarkOf(header))
    case Kept(start, run) => ScanStep(s, Range(start, |run|))
  }

  function ScanPieces(pieces: seq<Piece>): (s: Scan)
    ensures s.Scan? && s.current.Some? ==> s.current.value in s.added
  {
    if pieces == [] then Scan(map[], None)
    else ScanPiece(ScanPieces(pieces[..|pieces| - 1]), pieces[|pieces| - 1])
  }

  lemma {:induction false} SearchSkips(prefix: string, rest: string)
    requires forall i :: 0 <= i < |prefix| ==> prefix[i] != '+'
    ensures SearchRange(prefix + rest) == SearchRange(rest)
  {
    if prefix == [] {
      assert prefix + rest == rest;
    } else {
      assert (prefix + rest)[1..] == prefix[1..] + rest;
      SearchSkips(prefix[1..], rest);
    }
  }

  lemma GroupCountOfPrinted(count: nat)
    ensures GroupCount("," + Decimal(count) + " @@") == count
  {
    hide Decimal, Value;
    var tail := "," + Decimal(count) + " @@";
    assert tail[..1] == ",";
    assert tail[1..] == Decimal(count) + " @@";
    DigitRunStops(Decimal(count), " @@");
    ValueOfDecimal(count);
  }

  lemma SearchAtPlus(number: string, tail: string)
    requires number != [] && AllDigits(number) && (tail == [] || !IsDigit(tail[0]))
    ensures SearchRange("+" + number + tail) == Some((Value(number), GroupCount(tail)))
  {
    hide GroupCount, Value;
    var s := "+" + number + tail;
    assert s[0] == '+';
    assert s[1..] == number + tail;
    DigitRunStops(number, tail);
  }

  /** The scorer's own pattern reads back the printed start and count. */
  lemma MarkOfHunkHeader(start: nat, count: nat)
    ensures MarkOf(HunkHeader(start, count)) == Range(start, count)
  {
    hide SearchRange, GroupCount, Decimal, Value;
    var tail := "," + Decimal(count) + " @@";
    var line := HunkHeader(start, count);
    assert "@@ -0,0 +" == "@@ -0,0 " + "+";
    assert line == "@@ -0,0 " + ("+" + Decimal(start) + tail);
    SearchSkips("@@ -0,0 ", "+" + Decimal(start) + tail);
    SearchAtPlus(Decimal(start), tail);
    GroupCountOfPrinted(count);
    ValueOfDecimal(start);
    assert line[0] == '@';
    assert line[..2] == "@@";
  }

  lemma FileLineIsHeader(line: string)
    ensures HeaderPath(line).Some? ==> IsHeader(line)
  {
    if StartsWith(line, "+++ b/") {
      assert line[..4] == line[..6][..4] == "+++ ";
    }
  }

  lemma MarkOfAddition(line: string)
    requires Lex(line).Added?
    ensures MarkOf(line) == Skip
  {
    hide MatchHunk, SearchRange, Content;
    FileLineIsHeader(line);
    assert line[0] == '+';
  }

  lemma {:induction false} ScanSkips(before: seq<string>, skipped: seq<string>)
    requires forall i :: 0 <= i < |skipped| ==> MarkOf(skipped[i]) == Skip
    ensures ScanLines(before + skipped) == ScanLines(before)
  {
    hide MarkOf;
    if skipped == [] {
      assert before + skipped == before;
    } else {
      var k := |skipped| - 1;
      assert (before + skipped)[..|before| + k] == before + skipped[..k];
      ScanSkips(before, skipped[..k]);
    }
  }

  lemma ScanLinesSnoc(lines: seq<string>, line: string)
    ensures ScanLines(lines + [line]) == ScanStep(ScanLines(lines), MarkOf(line))
  {
    hide MarkOf, ScanStep;
    assert (lines + [line])[..|lines|] == lines;
  }

  lemma ScanOfPiece(before: seq<string>, piece: Piece)
    requires Faithful(piece)
    ensures ScanLines(before + PieceLines(piece)) == ScanPiece(ScanLines(before), piece)
  {
    hide MarkOf, ScanStep, ScanLines, HunkHeader, Lex;
    match piece
    case Copied(header) =>
      ScanLinesSnoc(before, header);
    case Kept(start, run) =>
      var header := HunkHeader(start, |run|);
      ScanLinesSnoc(before, header);
      MarkOfHunkHeader(start, |run|);
      var lines := AddLines(run);
      forall i | 0 <= i < |lines| ensures MarkOf(lines[i]) == Skip {
        MarkOfAddition(lines[i]);
      }
      ScanSkips(before + [header], lines);
      assert before + [header] + lines == before + PieceLines(piece);
  }

  lemma {:induction false} ScanOfPrint(pieces: seq<Piece>)
    requires AllFaithful(pieces)
    ensures ScanLines(Print(pieces)) == ScanPieces(pieces)
  {
    hide ScanPiece, Faithful, PieceLines;
    if pieces != [] {
      var k := |pieces| - 1;
      ScanOfPrint(pieces[..k]);
      ScanOfPiece(Print(pieces[..k]), pieces[k]);
    }
  }

  // ----- the filter's state against the plain reading -----

  /** Located additions lie in files already announced. */
  ghost predicate InFiles(r: Reading) {
    && (r.path.Some? ==> r.path.value in r.files)
    && forall k :: 0 <= k < |r.adds| ==> r.adds[k].path.Some? ==> r.adds[k].path.value in r.files
  }

  ghost predicate Agrees(f: Filter, r: Reading, removed: multiset<string>) {
    && f.lineno == r.lineno
    && InFiles(r)
    && Tracks(f, Adds(r.adds), removed)
    && ScanPieces(Flush(f).out) == Expected(r, removed)
  }

  lemma ScanPiecesSnoc(pieces: seq<Piece>, piece: Piece)
    ensures ScanPieces(pieces + [piece]) == ScanPiece(ScanPieces(pieces), piece)
  {
    hide ScanPiece;
    assert (pieces + [piece])[..|pieces|] == pieces;
  }

  lemma NoNumbersOutsideFiles(r: Reading, removed: multiset<string>, path: string)
    requires InFiles(r) && path !in r.files
    ensures SurvivingNumbers(r.adds, removed, path) == {}
  {
    hide Survives;
  }

  lemma ExpectedHeader(r: Reading, removed: multiset<string>, line: string)
    requires InFiles(r) && Lex(line) == Header(line)
    ensures Expected(ReadStep(r, Header(line)), removed) == ScanStep(Expected(r, removed), MarkOf(line))
  {
    hide SurvivingNumbers, Lex, MarkOf, HeaderPath, GoProduction;
    MarkOfHeader(line);
    if HeaderPath(line).Some? {
      var path := HeaderPath(line).value;
      if path !in r.files {
        NoNumbersOutsideFiles(r, removed, path);
      }
    }
  }

  lemma HeaderAgrees(f: Filter, r: Reading, removed: multiset<string>, line: string)
    requires Agrees(f, r, removed) && Lex(line) == Header(line)
    ensures Agrees(Step(f, Header(line)), ReadStep(r, Header(line)), removed)
  {
    hide Expected, Tracks, Lex, MarkOf, HeaderPath, ScanPieces, ScanStep;
    StepTracks(f, Header(line), Adds(r.adds), removed);
    assert Adds(r.adds) + [] == Adds(r.adds);
    ScanPiecesSnoc(Flush(f).out, Copied(line));
    ExpectedHeader(r, removed, line);
  }

  lemma HeaderHasNoAtSign(line: string)
    ensures IsHeader(line) ==> line != "" && line[0] != '@'
  {
  }

  lemma MarkOfHeader(line: string)
    requires Lex(line) == Header(line)
    ensures MarkOf(line) == match HeaderPath(line) case Some(path) => File(path) case None => Skip
  {
    hide MatchHunk, SearchRange, Content, HeaderPath;
    assert StartsWith(line, "@@") ==> line != "" && line[0] == '@';
    HeaderHasNoAtSign(line);
  }

  /** One more located addition adds its number to its own file, if it survives. */
  lemma SurvivingNumbersSnoc(located: seq<Located>, last: Located, removed: multiset<string>, path: string)
    ensures SurvivingNumbers(located + [last], removed, path) ==
            SurvivingNumbers(located, removed, path) +
            if Survives(Adds(located) + [last.add], |located|, removed) && last.path == Some(path)
            then {last.number} else {}
  {
    var more := located + [last];
    assert Adds(more) == Adds(located) + [last.add];
    forall k: nat | k < |located| ensures Survives(Adds(more), k, removed) == Survives(Adds(located), k, removed) {
      assert Adds(more)[..k] == Adds(located)[..k];
    }
    assert more[|located|] == last;
    assert forall k: nat :: k < |located| ==> more[k] == located[k];
  }

  lemma SurvivesSnoc(adds: seq<Add>, add: Add, removed: multiset<string>)
    ensures Survives(adds + [add], |adds|, removed) <==>
            add.text == "" || CountText(adds, add.text) >= removed[add.text]
  {
    hide CountText;
    assert (adds + [add])[..|adds|] == adds;
  }

  lemma ExpectedSnoc(r: Reading, add: Add, removed: multiset<string>)
    requires InFiles(r)
    ensures var s, s' := Expected(r, removed), Expected(ReadStep(r, Added(add)), removed);
            s' == if Survives(Adds(r.adds) + [add], |r.adds|, removed) then ScanStep(s, Range(r.lineno, 1)) else s
  {
    hide SurvivingNumbers, Survives, GoProduction, Numbers;
    var located := Located(r.path, r.lineno, add);
    var survives := Survives(Adds(r.adds) + [add], |r.adds|, removed);
    var s, s' := Expected(r, removed), Expected(ReadStep(r, Added(add)), removed);
    forall path | path in s.added
      ensures s'.added[path] == if survives && r.path == Some(path) then s.added[path] + {r.lineno} else s.added[path]
    {
      SurvivingNumbersSnoc(r.adds, located, removed, path);
    }
    assert Numbers(r.lineno, 1) == {r.lineno};
    assert s'.added.Keys == s.added.Keys;
    if survives && Scored(r.path).Some? {
      var path := r.path.value;
      assert s'.added == s.added[path := s.added[path] + Numbers(r.lineno, 1)];
    } else {
      assert s'.added == s.added;
    }
  }

  /** Growing a run by one line is scanned as one more number. */
  lemma RunGrows(s: Scan, start: nat, run: seq<Add>, add: Add)
    requires s.Scan? && s.current.Some? ==> s.current.value in s.added
    ensures ScanPiece(s, Kept(start, run + [add])) == ScanStep(ScanPiece(s, Kept(start, run)), Range(start + |run|, 1))
  {
    assert Numbers(start, |run| + 1) == Numbers(start, |run|) + Numbers(start + |run|, 1);
    if s.Scan? && s.current.Some? {
      var old' := s.added[s.current.value];
      assert old' + Numbers(start, |run| + 1) == old' + Numbers(start, |run|) + Numbers(start + |run|, 1);
    }
  }

  lemma AddedAgrees(f: Filter, r: Reading, removed: multiset<string>, add: Add)
    requires Agrees(f, r, removed)
    ensures Agrees(Step(f, Added(add)), ReadStep(r, Added(add)), removed)
  {
    hide Expected, Tracks, ScanPieces;
    var r' := ReadStep(r, Added(add));
    assert Adds(r'.adds) == Adds(r.adds) + [add];
    assert Tracks(Step(f, Added(add)), Adds(r'.adds), removed) by {
      StepTracks(f, Added(add), Adds(r.adds), removed);
    }
    assert InFiles(r');
    AddedScans(f, r, removed, add);
  }

  lemma AddedScans(f: Filter, r: Reading, removed: multiset<string>, add: Add)
    requires Agrees(f, r, removed)
    ensures ScanPieces(Flush(Step(f, Added(add))).out) == Expected(ReadStep(r, Added(add)), removed)
  {
    hide ScanPieces, ScanPiece, ScanStep, Expected, Survives, CountText, Survivors, PieceAdds;
    SurvivesSnoc(Adds(r.adds), add, removed);
    ExpectedSnoc(r, add, removed);
    if add.text != "" && f.removed[add.text] > 0 {
    } else if f.run == [] {
      assert f.run + [add] == [add];
      ScanPiecesSnoc(f.out, Kept(f.lineno, [add]));
      ScanOfSingleton(ScanPieces(f.out), f.lineno, add);
    } else {
      ScanPiecesSnoc(f.out, Kept(f.runStart, f.run));
      ScanPiecesSnoc(f.out, Kept(f.runStart, f.run + [add]));
      RunGrows(ScanPieces(f.out), f.runStart, f.run, add);
    }
  }

  lemma ScanOfSingleton(s: Scan, start: nat, add: Add)
    requires s.Scan? && s.current.Some? ==> s.current.value in s.added
    ensures ScanPiece(s, Kept(start, [add])) == ScanStep(s, Range(start, 1))
  {
  }

  lemma {:induction false} RunAgrees(lines: seq<string>, removed: multiset<string>)
    ensures Agrees(Run(Initial(removed), Lexed(lines)), Read(START, Lexed(lines)), removed)
  {
    hide Lex;
    if lines == [] {
      assert Expected(START, removed) == Scan(map[], None);
    } else {
      var k := |lines| - 1;
      RunAgrees(lines[..k], removed);
      assert Lexed(lines)[..k] == Lexed(lines[..k]);
      StepAgrees(Run(Initial(removed), Lexed(lines[..k])), Read(START, Lexed(lines[..k])), removed, lines[k]);
    }
  }

  lemma StepAgrees(f: Filter, r: Reading, removed: multiset<string>, line: string)
    requires Agrees(f, r, removed)
    ensures Agrees(Step(f, Lex(line)), ReadStep(r, Lex(line)), removed)
  {
    hide Lex, Expected, ScanPieces;
    var token := Lex(line);
    LexFaithful(line);
    match token
    case Header(_) =>
      HeaderAgrees(f, r, removed, line);
    case Added(add) =>
      AddedAgrees(f, r, removed, add);
    case _ =>
      StepTracks(f, token, Adds(r.adds), removed);
      assert Adds(r.adds) + [] == Adds(r.adds);
      ExpectedIgnoresLineno(r, ReadStep(r, token), removed);
  }

  lemma ExpectedIgnoresLineno(r: Reading, r': Reading, removed: multiset<string>)
    requires r' == r.(lineno := r'.lineno)
    ensures Expected(r', removed) == Expected(r, removed)
  {
    hide SurvivingNumbers;
  }

  /** For every diff text: what the scorer reads from the stripped output is, per Go production
      file, exactly the set of numbers of the additions that survive; and reading never fails. */
  lemma ScorerReadsTheSurvivingNumbers(lines: seq<string>)
    ensures ScanLines(Stripped(lines)) == Expected(Read(START, Lexed(lines)), Removals(Lexed(lines)))
  {
    hide Lex, Run, Read, Expected, ScanLines, ScanPieces, Print;
    var tokens := Lexed(lines);
    RunAgrees(lines, Removals(tokens));
    PiecesFaithful(lines);
    ScanOfPrint(Pieces(tokens));
  }
}
