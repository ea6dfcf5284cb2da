/** `strip_moved`: the filter that drops verbatim-moved lines from a zero-context diff and
    rewrites hunk headers so that what is left keeps its new-file line numbers.
    A diff is the sequence of its lines, as `splitlines` yields them. */
module MovedLines {
  import opened Text

  // ----- how the filter reads a line -----

  datatype Add = Add(line: string, text: string)

  datatype Token =
    | Header(line: string)
    | Hunk(start: nat)
    | Added(add: Add)
    | Removed(text: string)
    | Other

  predicate IsHeader(line: string) {
    || StartsWith(line, "diff --git")
    || StartsWith(line, "--- ")
    || StartsWith(line, "+++ ")
    || StartsWith(line, "index ")
  }

  /** The text of a line behind its one-character marker, without surrounding whitespace. */
  function Content(line: string): string {
    if line == "" then "" else Strip(line[1..])
  }

  /** The rest of a line behind an optional `,digits` group. */
  function AfterCount(s: string): string {
    if StartsWith(s, ",") && DigitRun(s[1..]) > 0 then s[1..][DigitRun(s[1..])..] else s
  }

  /** ` \+(\d+)(?:,(\d+))? @@` at the start of `s`. */
  function MatchNewRange(s: string): Option<nat> {
    if !StartsWith(s, " +") then None else
    var number := s[2..];
    var d := DigitRun(number);
    if d > 0 && StartsWith(AfterCount(number[d..]), " @@") then Some(Value(number[..d])) else None
  }

  /** `^@@ -\S+ \+(\d+)(?:,(\d+))? @@`: the new-file start of a hunk header. */
  function MatchHunk(line: string): Option<nat> {
    if !StartsWith(line, "@@ -") then None else
    var k := NonSpaceRun(line[4..]);
    if k == 0 then None else MatchNewRange(line[4..][k..])
  }

  /** Removed lines are those with a leading `-` that is not `---`, unless blank. */
  function Lex(line: string): Token {
    if IsHeader(line) then Header(line)
    else if MatchHunk(line).Some? then Hunk(MatchHunk(line).value)
    else if StartsWith(line, "+") then Added(Add(line, Content(line)))
    else if StartsWith(line, "-") && !StartsWith(line, "---") && Content(line) != "" then Removed(Content(line))
    else Other
  }

  function Lexed(lines: seq<string>): (tokens: seq<Token>)
    ensures |tokens| == |lines|
    ensures forall i :: 0 <= i < |lines| ==> tokens[i] == Lex(lines[i])
  {
    seq(|lines|, i requires 0 <= i < |lines| => Lex(lines[i]))
  }

  // ----- the filter -----

  /** The output: header lines copied through, and runs of additions under a fresh header. */
  datatype Piece = Copied(header: string) | Kept(start: nat, run: seq<Add>)

  datatype Filter = Filter(out: seq<Piece>, run: seq<Add>, runStart: nat, lineno: nat, removed: multiset<string>)

  function Removals(tokens: seq<Token>): multiset<string> {
    if tokens == [] then multiset{} else
    var last := tokens[|tokens| - 1];
    Removals(tokens[..|tokens| - 1]) + if last.Removed? then multiset{last.text} else multiset{}
  }

  function Flush(f: Filter): Filter {
    if f.run == [] then f else f.(out := f.out + [Kept(f.runStart, f.run)], run := [])
  }

  function Step(f: Filter, token: Token): Filter {
    match token
    case Header(line) =>
      Flush(f).(out := Flush(f).out + [Copied(line)])
    case Hunk(start) =>
      Flush(f).(lineno := start)
    case Added(add) =>
      if add.text != "" && f.removed[add.text] > 0 then
        Flush(f).(removed := f.removed - multiset{add.text}, lineno := f.lineno + 1)
      else
        f.(runStart := if f.run == [] then f.lineno else f.runStart,
           run := f.run + [add], lineno := f.lineno + 1)
    case _ =>
      Flush(f)
  }

  function Run(f: Filter, tokens: seq<Token>): Filter {
    if tokens == [] then f else Step(Run(f, tokens[..|tokens| - 1]), tokens[|tokens| - 1])
  }

  function Initial(removed: multiset<string>): Filter {
    Filter([], [], 0, 0, removed)
  }

  function Pieces(tokens: seq<Token>): seq<Piece> {
    Flush(Run(Initial(Removals(tokens)), tokens)).out
  }

  // ----- printing the output -----

  function HunkHeader(start: nat, count: nat): string {
    "@@ -0,0 +" + Decimal(start) + "," + Decimal(count) + " @@"
  }

  function AddLines(run: seq<Add>): seq<string> {
    seq(|run|, i requires 0 <= i < |run| => run[i].line)
  }

  function PieceLines(piece: Piece): seq<string> {
    match piece
    case Copied(header) => [header]
    case Kept(start, run) => [HunkHeader(start, |run|)] + AddLines(run)
  }

  function Print(pieces: seq<Piece>): seq<string> {
    if pieces == [] then [] else Print(pieces[..|pieces| - 1]) + PieceLines(pieces[|pieces| - 1])
  }

  function Stripped(lines: seq<string>): seq<string> {
    Print(Pieces(Lexed(lines)))
  }

  lemma PrintSnoc(pieces: seq<Piece>, piece: Piece)
    ensures Print(pieces + [piece]) == Print(pieces) + PieceLines(piece)
  {
    assert (pieces + [piece])[..|pieces|] == pieces;
  }

  /** The inner `flush`: the output lines after a pending run is written out. */
  method FlushLines(out: seq<string>, run: seq<string>, runStart: nat, ghost f: Filter) returns (flushed: seq<string>)
    requires out == Print(f.out) && run == AddLines(f.run) && runStart == f.runStart
    ensures flushed == Print(Flush(f).out)
  {
    flushed := out;
    if run != [] {
      flushed := out + [HunkHeader(runStart, |run|)] + run;
      PrintSnoc(f.out, Kept(f.runStart, f.run));
    }
  }

  method CountRemoved(tokens: seq<Token>) returns (removed: multiset<string>)
    ensures removed == Removals(tokens)
  {
    removed := multiset{};
    for i := 0 to |tokens|
      invariant removed == Removals(tokens[..i])
    {
      assert tokens[..i + 1][..i] == tokens[..i];
      match tokens[i]
      case Removed(text) => removed := removed + multiset{text};
      case _ =>
    }
    assert tokens[..|tokens|] == tokens;
  }

  /** One pass of the rewriting loop. */
  method StripToken(token: Token, out: seq<string>, run: seq<string>, runStart: nat, lineno: nat,
                    removed: multiset<string>, ghost f: Filter)
    returns (out': seq<string>, run': seq<string>, runStart': nat, lineno': nat, removed': multiset<string>)
    requires State(f, out, run, runStart, lineno, removed)
    ensures State(Step(f, token), out', run', runStart', lineno', removed')
  {
    out', run', runStart', lineno', removed' := out, run, runStart, lineno, removed;
    match token
    case Header(line) =>
      var flushed := FlushLines(out, run, runStart, f);
      PrintSnoc(Flush(f).out, Copied(line));
      out', run' := flushed + [line], [];
    case Hunk(start) =>
      out' := FlushLines(out, run, runStart, f);
      run', lineno' := [], start;
    case Added(add) =>
      if add.text != "" && removed[add.text] > 0 {
        removed' := removed - multiset{add.text};
        out' := FlushLines(out, run, runStart, f);
        run' := [];
      } else {
        if run == [] {
          runStart' := lineno;
        }
        run' := run + [add.line];
      }
      lineno' := lineno + 1;
    case _ =>
      out' := FlushLines(out, run, runStart, f);
      run' := [];
  }

  /** The loop variables against the abstract state they stand for. */
  ghost predicate State(f: Filter, out: seq<string>, run: seq<string>, runStart: nat, lineno: nat,
                        removed: multiset<string>) {
    && out == Print(f.out) && run == AddLines(f.run)
    && runStart == f.runStart && lineno == f.lineno && removed == f.removed
  }

  /** The rewriting loop over the lines as read. */
  method StripTokens(tokens: seq<Token>) returns (out: seq<string>)
    ensures out == Print(Pieces(tokens))
  {
    var removed := CountRemoved(tokens);
    ghost var initial := Initial(removed);
    out := [];
    var run: seq<string>, runStart, lineno := [], 0, 0;
    for i := 0 to |tokens|
      invariant State(Run(initial, tokens[..i]), out, run, runStart, lineno, removed)
    {
      assert tokens[..i + 1][..i] == tokens[..i];
      out, run, runStart, lineno, removed :=
        StripToken(tokens[i], out, run, runStart, lineno, removed, Run(initial, tokens[..i]));
    }
    assert tokens[..|tokens|] == tokens;
    out := FlushLines(out, run, runStart, Run(initial, tokens));
  }

  method StripMoved(lines: seq<string>) returns (out: seq<string>)
    ensures out == Stripped(lines)
  {
    out := StripTokens(Lexed(lines));
  }

  // ----- which additions should survive, independently of the filter -----

  function Additions(tokens: seq<Token>): seq<Add> {
    if tokens == [] then [] else
    var last := tokens[|tokens| - 1];
    Additions(tokens[..|tokens| - 1]) + if last.Added? then [last.add] else []
  }

  function CountText(adds: seq<Add>, text: string): nat {
    if adds == [] then 0 else
    CountText(adds[..|adds| - 1], text) + if adds[|adds| - 1].text == text then 1 else 0
  }

  /** The k-th addition stays when it is blank or when every removed copy of its text has
      already been matched by an earlier addition. */
  predicate Survives(adds: seq<Add>, k: nat, removed: multiset<string>)
    requires k < |adds|
  {
    adds[k].text == "" || CountText(adds[..k], adds[k].text) >= removed[adds[k].text]
  }

  function Survivors(adds: seq<Add>, removed: multiset<string>): seq<Add> {
    if adds == [] then [] else
    var k := |adds| - 1;
    Survivors(adds[..k], removed) + if Survives(adds, k, removed) then [adds[k]] else []
  }

  function Excess(added: nat, removed: nat): nat {
    if added > removed then added - removed else 0
  }

  lemma CountTextSnoc(adds: seq<Add>, add: Add, text: string)
    ensures CountText(adds + [add], text) == CountText(adds, text) + if add.text == text then 1 else 0
  {
    assert (adds + [add])[..|adds|] == adds;
  }

  ghost predicate KeepsExcess(adds: seq<Add>, removed: multiset<string>, text: string) {
    CountText(Survivors(adds, removed), text) ==
    if text == "" then CountText(adds, text) else Excess(CountText(adds, text), removed[text])
  }

  lemma KeepsExcessSnoc(adds: seq<Add>, add: Add, removed: multiset<string>, text: string)
    requires KeepsExcess(adds, removed, text)
    ensures KeepsExcess(adds + [add], removed, text)
  {
    hide Survives, Survivors, CountText;
    SurvivorsSnoc(adds, add, removed);
    CountTextSnoc(adds, add, text);
    CountTextSnoc(Survivors(adds, removed), add, text);
  }

  lemma {:induction false} SurvivorCount(adds: seq<Add>, removed: multiset<string>, text: string)
    ensures CountText(Survivors(adds, removed), text) ==
            if text == "" then CountText(adds, text) else Excess(CountText(adds, text), removed[text])
  {
    if adds != [] {
      hide Survivors, CountText;
      var k := |adds| - 1;
      SurvivorCount(adds[..k], removed, text);
      KeepsExcessSnoc(adds[..k], adds[k], removed, text);
      assert adds == adds[..k] + [adds[k]];
    }
  }

  lemma SurvivorsSnoc(adds: seq<Add>, add: Add, removed: multiset<string>)
    ensures Survivors(adds + [add], removed) ==
            if add.text == "" || CountText(adds, add.text) >= removed[add.text]
            then Survivors(adds, removed) + [add] else Survivors(adds, removed)
  {
    hide CountText;
    assert (adds + [add])[..|adds|] == adds;
    assert Survivors(adds, removed) + [] == Survivors(adds, removed);
  }

  // ----- the filter keeps exactly the survivors -----

  function PieceAdds(pieces: seq<Piece>): seq<Add> {
    if pieces == [] then [] else
    var last := pieces[|pieces| - 1];
    PieceAdds(pieces[..|pieces| - 1]) + if last.Kept? then last.run else []
  }

  lemma PieceAddsSnoc(pieces: seq<Piece>, piece: Piece)
    ensures PieceAdds(pieces + [piece]) == PieceAdds(pieces) + if piece.Kept? then piece.run else []
  {
    assert (pieces + [piece])[..|pieces|] == pieces;
  }

  lemma PieceAddsFlush(f: Filter)
    ensures PieceAdds(Flush(f).out) == PieceAdds(f.out) + f.run
  {
    PieceAddsSnoc(f.out, Kept(f.runStart, f.run));
  }

  /** What the filter's state means after some tokens, `adds` being the additions among them
      and `removed` the removals of the whole diff. */
  ghost predicate Tracks(f: Filter, adds: seq<Add>, removed: multiset<string>) {
    && (f.run != [] ==> f.runStart + |f.run| == f.lineno)
    && (forall t :: t != "" ==> f.removed[t] == Excess(removed[t], CountText(adds, t)))
    && PieceAdds(f.out) + f.run == Survivors(adds, removed)
  }

  /** Matching one more addition of a text uses up one removal of it, while any is left. */
  lemma MatchTracks(left: multiset<string>, add: Add, adds: seq<Add>, removed: multiset<string>)
    requires forall t :: t != "" ==> left[t] == Excess(removed[t], CountText(adds, t))
    ensures var left' := if add.text != "" && left[add.text] > 0 then left - multiset{add.text} else left;
            forall t :: t != "" ==> left'[t] == Excess(removed[t], CountText(adds + [add], t))
  {
    forall t ensures CountText(adds + [add], t) == CountText(adds, t) + if add.text == t then 1 else 0 {
      CountTextSnoc(adds, add, t);
    }
  }

  lemma AddTracks(f: Filter, add: Add, adds: seq<Add>, removed: multiset<string>)
    requires Tracks(f, adds, removed)
    ensures Tracks(Step(f, Added(add)), adds + [add], removed)
  {
    hide CountText, Survivors, PieceAdds;
    PieceAddsFlush(f);
    MatchTracks(f.removed, add, adds, removed);
    SurvivorsSnoc(adds, add, removed);
    assert PieceAdds(f.out) + (f.run + [add]) == PieceAdds(f.out) + f.run + [add];
  }

  lemma StepTracks(f: Filter, token: Token, adds: seq<Add>, removed: multiset<string>)
    requires Tracks(f, adds, removed)
    ensures Tracks(Step(f, token), adds + if token.Added? then [token.add] else [], removed)
  {
    if token.Added? {
      AddTracks(f, token.add, adds, removed);
    } else {
      PieceAddsFlush(f);
      if token.Header? {
        PieceAddsSnoc(Flush(f).out, Copied(token.line));
      }
      assert adds + [] == adds;
    }
  }

  lemma {:induction false} RunTracks(tokens: seq<Token>, removed: multiset<string>)
    ensures Tracks(Run(Initial(removed), tokens), Additions(tokens), removed)
  {
    if tokens != [] {
      var k := |tokens| - 1;
      RunTracks(tokens[..k], removed);
      StepTracks(Run(Initial(removed), tokens[..k]), tokens[k], Additions(tokens[..k]), removed);
    }
  }

  /** Exactly the surviving additions are kept, in their order. */
  lemma KeepsExactlyTheSurvivors(tokens: seq<Token>)
    ensures PieceAdds(Pieces(tokens)) == Survivors(Additions(tokens), Removals(tokens))
  {
    RunTracks(tokens, Removals(tokens));
    PieceAddsFlush(Run(Initial(Removals(tokens)), tokens));
  }

  // ----- reading the output back -----

  function AddTokens(run: seq<Add>): seq<Token> {
    seq(|run|, i requires 0 <= i < |run| => Added(run[i]))
  }

  function PieceTokens(piece: Piece): seq<Token> {
    match piece
    case Copied(header) => [Header(header)]
    case Kept(start, run) => [Hunk(start)] + AddTokens(run)
  }

  function Tokens(pieces: seq<Piece>): seq<Token> {
    if pieces == [] then [] else Tokens(pieces[..|pieces| - 1]) + PieceTokens(pieces[|pieces| - 1])
  }

  /** Lines the filter copies are read back as what they were. */
  ghost predicate Faithful(piece: Piece) {
    match piece
    case Copied(header) => Lex(header) == Header(header)
    case Kept(_, run) => run != [] && forall i :: 0 <= i < |run| ==> Lex(run[i].line) == Added(run[i])
  }

  ghost predicate AllFaithful(pieces: seq<Piece>) {
    forall i :: 0 <= i < |pieces| ==> Faithful(pieces[i])
  }

  lemma AtSignIsNoHeader(line: string)
    requires line != "" && line[0] == '@'
    ensures !IsHeader(line)
  {
    assert forall p: string :: p != "" && StartsWith(line, p) ==> p[0] == '@';
  }

  lemma HunkHeaderShape(start: nat, count: nat)
    ensures var line := HunkHeader(start, count);
            && StartsWith(line, "@@ -") && line[4..] == "0,0" + " +" + Decimal(start) + "," + Decimal(count) + " @@"
            && line[0] == '@'
  {
    hide Decimal;
    var line := HunkHeader(start, count);
    assert "@@ -" + "0,0" + " +" == "@@ -0,0 +";
    assert line == "@@ -" + ("0,0" + " +" + Decimal(start) + "," + Decimal(count) + " @@");
    assert line[..4] == "@@ -";
  }

  lemma MatchNewRangeParts(s: string, number: string, tail: string)
    requires s == " +" + number + tail
    requires number != [] && AllDigits(number) && (tail == [] || !IsDigit(tail[0]))
    requires StartsWith(AfterCount(tail), " @@")
    ensures MatchNewRange(s) == Some(Value(number))
  {
    hide AfterCount;
    assert s[..2] == " +";
    assert s[2..] == number + tail;
    DigitRunStops(number, tail);
  }

  lemma MatchNewRangeOfPrinted(start: nat, count: nat)
    ensures MatchNewRange(" +" + Decimal(start) + "," + Decimal(count) + " @@") == Some(start)
  {
    hide MatchNewRange, Decimal, Value;
    var tail := "," + Decimal(count) + " @@";
    assert tail[1..] == Decimal(count) + " @@";
    DigitRunStops(Decimal(count), " @@");
    assert AfterCount(tail) == " @@";
    MatchNewRangeParts(" +" + Decimal(start) + "," + Decimal(count) + " @@", Decimal(start), tail) by {
      assert " +" + Decimal(start) + "," + Decimal(count) + " @@" == " +" + Decimal(start) + tail;
    }
    ValueOfDecimal(start);
  }

  lemma MatchHunkParts(line: string, word: string, range: string)
    requires StartsWith(line, "@@ -") && line[4..] == word + range
    requires word != [] && forall i :: 0 <= i < |word| ==> !IsSpace(word[i])
    requires range != [] && IsSpace(range[0])
    ensures MatchHunk(line) == MatchNewRange(range)
  {
    NonSpaceRunStops(word, range);
  }

  /** The printer and the reader of hunk headers agree. */
  lemma MatchHunkOfHeader(start: nat, count: nat)
    ensures MatchHunk(HunkHeader(start, count)) == Some(start)
  {
    hide MatchHunk, MatchNewRange, HunkHeader;
    HunkHeaderShape(start, count);
    MatchNewRangeOfPrinted(start, count);
    var range := " +" + Decimal(start) + "," + Decimal(count) + " @@";
    assert range[0] == ' ';
    MatchHunkParts(HunkHeader(start, count), "0,0", range) by {
      assert "0,0" + " +" + Decimal(start) + "," + Decimal(count) + " @@" == "0,0" + range;
    }
  }

  lemma LexOfHunkHeader(start: nat, count: nat)
    ensures Lex(HunkHeader(start, count)) == Hunk(start)
  {
    hide HunkHeader, MatchHunk, IsHeader;
    HunkHeaderShape(start, count);
    AtSignIsNoHeader(HunkHeader(start, count));
    MatchHunkOfHeader(start, count);
  }

  lemma LexedAppend(a: seq<string>, b: seq<string>)
    ensures Lexed(a + b) == Lexed(a) + Lexed(b)
  {
  }

  lemma LexedPiece(piece: Piece)
    requires Faithful(piece)
    ensures Lexed(PieceLines(piece)) == PieceTokens(piece)
  {
    match piece
    case Copied(_) =>
    case Kept(start, run) =>
      LexOfHunkHeader(start, |run|);
      assert Lexed([HunkHeader(start, |run|)]) == [Hunk(start)];
      assert Lexed(AddLines(run)) == AddTokens(run);
      LexedAppend([HunkHeader(start, |run|)], AddLines(run));
  }

  lemma {:induction false} LexedPrint(pieces: seq<Piece>)
    requires AllFaithful(pieces)
    ensures Lexed(Print(pieces)) == Tokens(pieces)
  {
    if pieces != [] {
      var k := |pieces| - 1;
      LexedPrint(pieces[..k]);
      LexedPiece(pieces[k]);
      LexedAppend(Print(pieces[..k]), PieceLines(pieces[k]));
    }
  }

  /** Every piece of the output is faithful when the tokens came from lines. */
  lemma {:induction false} RunFaithful(f: Filter, lines: seq<string>)
    requires AllFaithful(f.out) && (f.run != [] ==> Faithful(Kept(f.runStart, f.run)))
    ensures var g := Run(f, Lexed(lines));
            AllFaithful(g.out) && (g.run != [] ==> Faithful(Kept(g.runStart, g.run)))
  {
    if lines != [] {
      var k := |lines| - 1;
      RunFaithful(f, lines[..k]);
      assert Lexed(lines)[..k] == Lexed(lines[..k]);
      StepFaithful(Run(f, Lexed(lines[..k])), lines[k]);
    }
  }

  lemma LexFaithful(line: string)
    ensures Lex(line).Header? ==> Lex(line) == Header(line)
    ensures Lex(line).Added? ==> Lex(line).add.line == line
  {
    hide IsHeader, MatchHunk, Content, StartsWith;
  }

  lemma StepFaithful(f: Filter, line: string)
    requires AllFaithful(f.out) && (f.run != [] ==> Faithful(Kept(f.runStart, f.run)))
    ensures var g := Step(f, Lex(line));
            AllFaithful(g.out) && (g.run != [] ==> Faithful(Kept(g.runStart, g.run)))
  {
    hide Lex;
    LexFaithful(line);
  }

  lemma PiecesFaithful(lines: seq<string>)
    ensures AllFaithful(Pieces(Lexed(lines)))
  {
    RunFaithful(Initial(Removals(Lexed(lines))), lines);
  }

  lemma {:induction false} AdditionsAppend(a: seq<Token>, b: seq<Token>)
    ensures Additions(a + b) == Additions(a) + Additions(b)
  {
    if b == [] {
      assert a + b == a;
    } else {
      var k := |b| - 1;
      assert (a + b)[..|a| + k] == a + b[..k];
      AdditionsAppend(a, b[..k]);
    }
  }

  lemma {:induction false} AdditionsOfRun(run: seq<Add>)
    ensures Additions(AddTokens(run)) == run
  {
    if run != [] {
      var k := |run| - 1;
      AdditionsOfRun(run[..k]);
      assert AddTokens(run)[..k] == AddTokens(run[..k]);
    }
  }

  lemma {:induction false} AdditionsOfPieces(pieces: seq<Piece>)
    ensures Additions(Tokens(pieces)) == PieceAdds(pieces)
  {
    if pieces != [] {
      var k := |pieces| - 1;
      AdditionsOfPieces(pieces[..k]);
      AdditionsAppend(Tokens(pieces[..k]), PieceTokens(pieces[k]));
      match pieces[k]
      case Copied(header) =>
        assert [Header(header)][..0] == Tokens([]);
      case Kept(start, run) =>
        assert [Hunk(start)][..0] == Tokens([]);
        AdditionsAppend([Hunk(start)], AddTokens(run));
        AdditionsOfRun(run);
    }
  }

  /** The additions left in the output are exactly the surviving ones, in their order; so each
      non-blank text keeps the excess of its additions over its removals, and blank lines all stay. */
  lemma KeepsTheExcess(lines: seq<string>, text: string)
    ensures var before, after := Lexed(lines), Lexed(Stripped(lines));
            && Additions(after) == Survivors(Additions(before), Removals(before))
            && CountText(Additions(after), text) ==
               if text == "" then CountText(Additions(before), text)
               else Excess(CountText(Additions(before), text), Removals(before)[text])
  {
    var tokens := Lexed(lines);
    PiecesFaithful(lines);
    LexedPrint(Pieces(tokens));
    AdditionsOfPieces(Pieces(tokens));
    KeepsExactlyTheSurvivors(tokens);
    SurvivorCount(Additions(tokens), Removals(tokens), text);
  }

  // ----- filtering twice -----

  lemma {:induction false} RunAppend(f: Filter, a: seq<Token>, b: seq<Token>)
    ensures Run(f, a + b) == Run(Run(f, a), b)
  {
    hide Step;
    if b == [] {
      assert a + b == a;
    } else {
      var k := |b| - 1;
      assert (a + b)[..|a| + k] == a + b[..k];
      RunAppend(f, a, b[..k]);
    }
  }

  lemma {:induction false} NoRemovals(tokens: seq<Token>)
    requires forall i :: 0 <= i < |tokens| ==> !tokens[i].Removed?
    ensures Removals(tokens) == multiset{}
  {
    if tokens != [] {
      NoRemovals(tokens[..|tokens| - 1]);
    }
  }

  lemma {:induction false} TokensRemoveNothing(pieces: seq<Piece>)
    ensures forall i :: 0 <= i < |Tokens(pieces)| ==> !Tokens(pieces)[i].Removed?
  {
    if pieces != [] {
      TokensRemoveNothing(pieces[..|pieces| - 1]);
    }
  }

  lemma NextAddition(f: Filter, add: Add)
    requires f.removed == multiset{}
    ensures Step(f, Added(add)) ==
            f.(runStart := if f.run == [] then f.lineno else f.runStart, run := f.run + [add], lineno := f.lineno + 1)
  {
  }

  lemma RunOfNext(f: Filter, run: seq<Add>)
    requires run != []
    ensures Run(f, AddTokens(run)) == Step(Run(f, AddTokens(run[..|run| - 1])), Added(run[|run| - 1]))
  {
    hide Step;
    assert AddTokens(run)[..|run| - 1] == AddTokens(run[..|run| - 1]);
  }

  /** With nothing removed, a run of additions accumulates unchanged. */
  lemma {:induction false} RunOfAdditions(f: Filter, run: seq<Add>)
    requires f.run == [] && f.removed == multiset{}
    ensures var g := Run(f, AddTokens(run));
            && g.out == f.out && g.run == run && g.removed == multiset{}
            && (run != [] ==> g.runStart == f.lineno)
            && g.lineno == f.lineno + |run|
  {
    if run != [] {
      hide Run, Step, AddTokens;
      var k := |run| - 1;
      RunOfAdditions(f, run[..k]);
      RunOfNext(f, run);
      NextAddition(Run(f, AddTokens(run[..k])), run[k]);
      assert run == run[..k] + [run[k]];
    }
  }

  lemma RunOfOne(f: Filter, token: Token)
    ensures Run(f, [token]) == Step(f, token)
  {
    assert [token][..0] == Tokens([]);
  }

  /** Reading back one piece writes that piece again. */
  lemma RunOfPiece(f: Filter, piece: Piece)
    requires f.removed == multiset{} && (piece.Kept? ==> piece.run != [])
    ensures var g := Run(f, PieceTokens(piece));
            Flush(g).out == Flush(f).out + [piece] && g.removed == multiset{}
  {
    match piece
    case Copied(header) =>
      RunOfOne(f, Header(header));
    case Kept(start, run) =>
      RunOfOne(f, Hunk(start));
      RunAppend(f, [Hunk(start)], AddTokens(run));
      RunOfAdditions(Step(f, Hunk(start)), run);
  }

  ghost predicate NoEmptyRun(pieces: seq<Piece>) {
    forall i :: 0 <= i < |pieces| ==> pieces[i].Kept? ==> pieces[i].run != []
  }

  lemma {:induction false} RunOfTokens(f: Filter, pieces: seq<Piece>)
    requires f.removed == multiset{} && NoEmptyRun(pieces)
    ensures var g := Run(f, Tokens(pieces));
            Flush(g).out == Flush(f).out + pieces && g.removed == multiset{}
  {
    hide Step, PieceTokens;
    if pieces != [] {
      var k := |pieces| - 1;
      var init, last := pieces[..k], pieces[k];
      RunOfTokens(f, init);
      RunAppend(f, Tokens(init), PieceTokens(last));
      RunOfPiece(Run(f, Tokens(init)), last);
      assert Flush(f).out + init + [last] == Flush(f).out + pieces;
    }
  }

  /** Filtering the filter's own output changes nothing, whatever the input. */
  lemma StrippingTwiceChangesNothing(lines: seq<string>)
    ensures Stripped(Stripped(lines)) == Stripped(lines)
  {
    hide Step, Lex, Run, PieceLines, PieceTokens;
    var pieces := Pieces(Lexed(lines));
    PiecesFaithful(lines);
    LexedPrint(pieces);
    TokensRemoveNothing(pieces);
    NoRemovals(Tokens(pieces));
    assert NoEmptyRun(pieces) by {
      forall i | 0 <= i < |pieces| ensures pieces[i].Kept? ==> pieces[i].run != [] {
        assert Faithful(pieces[i]);
      }
    }
    RunOfTokens(Initial(multiset{}), pieces);
    assert Flush(Initial(multiset{})).out + pieces == pieces;
    assert Pieces(Tokens(pieces)) == pieces;
  }
}
