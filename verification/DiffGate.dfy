/** The gate end to end, from a zero-context diff as `git` structures it: every added line has
    a file and a number in the new version, and these are what the gate must score. */
module DiffGate {
  import opened Text
  import opened LineBreaks
  import opened MovedLines
  import opened AddedCoverage
  import opened CoverageScore
  import opened RawDiff

  // ----- a zero-context diff and its text -----

  datatype BodyLine = Plus(text: string) | Minus(text: string) | NoNewline

  datatype Section = Section(oldRange: string, start: nat, count: Option<nat>, heading: string, body: seq<BodyLine>)

  /** A name git prints as it is, or in quotes with some of it escaped. A deleted file has no new
      version; a renamed, binary or mode-changed one shows no text. */
  datatype Target = Path(path: string) | Quoted(path: string, printed: string) | DevNull | NoText

  datatype FilePatch = FilePatch(preamble: seq<string>, target: Target, sections: seq<Section>)

  function BodyText(line: BodyLine): string {
    match line
    case Plus(text) => "+" + text
    case Minus(text) => "-" + text
    case NoNewline => "\\ No newline at end of file"
  }

  function BodyTexts(body: seq<BodyLine>): seq<string> {
    if body == [] then [] else [BodyText(body[0])] + BodyTexts(body[1..])
  }

  function CountSuffix(count: Option<nat>): string {
    match count case Some(n) => "," + Decimal(n) case None => ""
  }

  function SectionHeader(section: Section): string {
    "@@ -" + section.oldRange + (" +" + Decimal(section.start) + (CountSuffix(section.count) + (" @@" + section.heading)))
  }

  function SectionText(section: Section): seq<string> {
    [SectionHeader(section)] + BodyTexts(section.body)
  }

  function SectionTexts(sections: seq<Section>): seq<string> {
    if sections == [] then [] else SectionText(sections[0]) + SectionTexts(sections[1..])
  }

  /** git ends a label that holds a space with a tab. */
  function Labelled(name: string): string {
    if ' ' in name then name + "\t" else name
  }

  function TargetText(target: Target): string
    requires !target.NoText?
  {
    match target
    case Path(path) => "+++ b/" + Labelled(path)
    case Quoted(_, printed) => "+++ \"b/" + Labelled(printed + "\"")
    case DevNull => "+++ /dev/null"
  }

  function TargetPath(target: Target): Option<string> {
    match target case Path(path) => Some(path) case Quoted(path, _) => Some(path) case _ => None
  }

  /** The name the scorer takes from the line. */
  function NameRead(target: Target): Option<string> {
    match target case Path(path) => Some(Labelled(path)) case _ => None
  }

  /** The name the scorer goes by after the line, if it went by `before` until then. */
  function NameAfter(before: Option<string>, target: Target): Option<string> {
    if NameRead(target).Some? then NameRead(target) else before
  }

  function LastName(before: Option<string>, files: seq<FilePatch>): Option<string>
    decreases files
  {
    if files == [] then before else LastName(NameAfter(before, files[0].target), files[1..])
  }

  function FileText(file: FilePatch): seq<string> {
    file.preamble + if file.target.NoText? then [] else [TargetText(file.target)] + SectionTexts(file.sections)
  }

  function DiffText(files: seq<FilePatch>): seq<string> {
    if files == [] then [] else FileText(files[0]) + DiffText(files[1..])
  }

  /** Extended header lines of `git diff`: none starts like a hunk or a changed line. */
  predicate PreambleLine(line: string) {
    line != "" && line[0] != '+' && line[0] != '@' && (line[0] == '-' ==> StartsWith(line, "--- "))
  }

  predicate NoPlus(body: seq<BodyLine>) {
    forall i :: 0 <= i < |body| ==> !body[i].Plus?
  }

  ghost predicate WellFormedSection(section: Section) {
    section.oldRange != "" && forall i :: 0 <= i < |section.oldRange| ==> !IsSpace(section.oldRange[i])
  }

  ghost predicate WellFormedFile(file: FilePatch) {
    && (forall i :: 0 <= i < |file.preamble| ==> PreambleLine(file.preamble[i]))
    && (forall i :: 0 <= i < |file.sections| ==> WellFormedSection(file.sections[i]))
    && (file.target.NoText? ==> file.sections == [])
    && (file.target.DevNull? ==> forall i :: 0 <= i < |file.sections| ==> NoPlus(file.sections[i].body))
  }

  ghost predicate WellFormed(files: seq<FilePatch>) {
    forall i :: 0 <= i < |files| ==> WellFormedFile(files[i])
  }

  // ----- the truth about it -----

  /** The added lines of a hunk body, numbered from `n`. */
  function RealBody(path: Option<string>, n: nat, body: seq<BodyLine>): seq<Located>
    decreases body
  {
    if body == [] then []
    else if body[0].Plus? then
      [Located(path, n, Add("+" + body[0].text, Strip(body[0].text)))] + RealBody(path, n + 1, body[1..])
    else RealBody(path, n, body[1..])
  }

  function RealSections(path: Option<string>, sections: seq<Section>): seq<Located> {
    if sections == [] then []
    else RealBody(path, sections[0].start, sections[0].body) + RealSections(path, sections[1..])
  }

  function Real(files: seq<FilePatch>): seq<Located> {
    if files == [] then [] else RealSections(TargetPath(files[0].target), files[0].sections) + Real(files[1..])
  }

  /** The added lines under the names the scorer goes by. */
  function Seen(before: Option<string>, files: seq<FilePatch>): seq<Located>
    decreases files
  {
    if files == [] then [] else
    var name := NameAfter(before, files[0].target);
    RealSections(name, files[0].sections) + Seen(name, files[1..])
  }

  function Paths(files: seq<FilePatch>): set<string> {
    set i | 0 <= i < |files| && files[i].target.Path? :: files[i].target.path
  }

  function NamesRead(files: seq<FilePatch>): set<string> {
    set i | 0 <= i < |files| && files[i].target.Path? :: Labelled(files[i].target.path)
  }

  /** The condition on added lines: none has content starting with `++ `. */
  predicate PlainBody(body: seq<BodyLine>) {
    forall i :: 0 <= i < |body| ==> body[i].Plus? ==> !StartsWith(body[i].text, "++ ")
  }

  predicate PlainSections(sections: seq<Section>) {
    forall i :: 0 <= i < |sections| ==> PlainBody(sections[i].body)
  }

  predicate Plain(files: seq<FilePatch>) {
    forall i :: 0 <= i < |files| ==> PlainSections(files[i].sections)
  }

  // ----- how each rendered line is read -----

  lemma LexPlus(text: string)
    ensures Lex("+" + text) == if StartsWith(text, "++ ") then Header("+" + text) else Added(Add("+" + text, Strip(text)))
  {
    hide Strip, NonSpaceRun, MatchNewRange;
    var line := "+" + text;
    assert line[0] == '+';
    assert line[1..] == text;
    if StartsWith(text, "++ ") {
      assert line[..4] == "+" + text[..3] == "+++ ";
    } else {
      assert |line| >= 4 ==> line[..4] == "+" + text[..3];
      assert "+++ "[1..] == "++ ";
      assert |line| >= 4 ==> line[1..4] == text[..3];
    }
  }

  lemma DashHeader(line: string)
    ensures StartsWith(line, "--- ") ==> StartsWith(line, "---")
  {
    if StartsWith(line, "--- ") {
      assert line[..3] == line[..4][..3] == "---";
    }
  }

  /** Text of a removed line that the filter counts. */
  predicate Counted(text: string) {
    !StartsWith(text, "--") && Strip(text) != ""
  }

  lemma LexMinus(text: string)
    ensures var token := Lex("-" + text);
            if Counted(text) then token == Removed(Strip(text)) else token.Header? || token.Other?
    ensures HeaderPath("-" + text).None?
  {
    hide Strip, NonSpaceRun, MatchNewRange;
    var line := "-" + text;
    assert line[0] == '-';
    assert line[1..] == text;
    if StartsWith(text, "--") {
      assert line[..3] == "-" + text[..2] == "---";
    } else {
      assert |line| >= 3 ==> line[1..3] == text[..2];
      assert "---"[1..] == "--";
      DashHeader(line);
    }
  }

  lemma LexNoNewline()
    ensures Lex(BodyText(NoNewline)).Other?
  {
    hide Strip, NonSpaceRun, MatchNewRange;
    assert BodyText(NoNewline)[0] == '\\';
  }

  lemma LexPreamble(line: string)
    requires PreambleLine(line)
    ensures Lex(line).Header? || Lex(line).Other?
    ensures HeaderPath(line).None?
  {
    hide Strip, NonSpaceRun, MatchNewRange;
    DashHeader(line);
  }

  lemma LexTarget(target: Target)
    requires !target.NoText?
    ensures Lex(TargetText(target)).Header?
    ensures HeaderPath(TargetText(target)) == NameRead(target)
  {
    hide Strip, MatchHunk, Labelled;
    match target
    case Path(path) =>
      var line := "+++ b/" + Labelled(path);
      assert line[..6] == "+++ b/";
      assert line[..4] == line[..6][..4] == "+++ ";
      assert line[6..] == Labelled(path);
    case Quoted(_, printed) =>
      var line := "+++ \"b/" + Labelled(printed + "\"");
      assert line[..4] == "+++ ";
      assert line[4] == '\"';
    case DevNull =>
      assert "+++ /dev/null"[..4] == "+++ ";
      assert "+++ /dev/null"[4] == '/';
  }

  lemma MatchNewRangeOfSection(section: Section)
    ensures MatchNewRange(" +" + Decimal(section.start) + (CountSuffix(section.count) + (" @@" + section.heading))) == Some(section.start)
  {
    hide MatchNewRange, Decimal, Value, AfterCount;
    var tail := CountSuffix(section.count) + (" @@" + section.heading);
    AfterCountOf(section.count, section.heading);
    assert tail[0] == ',' || tail[0] == ' ';
    MatchNewRangeParts(" +" + Decimal(section.start) + tail, Decimal(section.start), tail);
    ValueOfDecimal(section.start);
  }

  lemma AfterPresentCount(s: string, digits: string, rest: string)
    requires s != "" && s[0] == ',' && s[1..] == digits + rest
    requires digits != "" && AllDigits(digits) && rest != "" && !IsDigit(rest[0])
    ensures AfterCount(s) == rest
  {
    DigitRunStops(digits, rest);
    assert s[..1] == ",";
  }

  lemma AfterAbsentCount(rest: string)
    requires rest != "" && rest[0] == ' '
    ensures AfterCount(rest) == rest
  {
  }

  /** Whatever the optional count, the closing marker follows. */
  lemma AfterCountOf(count: Option<nat>, heading: string)
    ensures StartsWith(AfterCount(CountSuffix(count) + (" @@" + heading)), " @@")
  {
    hide Decimal, AfterCount;
    var rest := " @@" + heading;
    assert rest[..3] == " @@";
    assert rest[0] == ' ';
    match count
    case Some(n) =>
      CommaShape(Decimal(n), rest);
      AfterPresentCount(CountSuffix(count) + rest, Decimal(n), rest);
    case None =>
      assert "" + rest == rest;
      AfterAbsentCount(rest);
  }

  lemma CommaShape(digits: string, rest: string)
    ensures var s := "," + digits + rest; s[0] == ',' && s[1..] == digits + rest
  {
  }

  lemma LexSectionHeader(section: Section)
    requires WellFormedSection(section)
    ensures Lex(SectionHeader(section)) == Hunk(section.start)
  {
    hide MatchHunk, MatchNewRange, Decimal, IsHeader, CountSuffix;
    var range := " +" + Decimal(section.start) + (CountSuffix(section.count) + (" @@" + section.heading));
    var line := SectionHeader(section);
    assert line == "@@ -" + (section.oldRange + range);
    assert line[..4] == "@@ -";
    assert line[4..] == section.oldRange + range;
    assert range[0] == ' ';
    MatchHunkParts(line, section.oldRange, range);
    MatchNewRangeOfSection(section);
    assert line[0] == '@';
    AtSignIsNoHeader(line);
  }

  // ----- reading the rendered diff -----

  lemma {:induction false} ReadAppend(r: Reading, a: seq<Token>, b: seq<Token>)
    ensures Read(r, a + b) == Read(Read(r, a), b)
  {
    hide ReadStep;
    if b == [] {
      assert a + b == a;
    } else {
      var k := |b| - 1;
      assert (a + b)[..|a| + k] == a + b[..k];
      ReadAppend(r, a, b[..k]);
    }
  }

  lemma ReadLexed(r: Reading, line: string, rest: seq<string>)
    ensures Read(r, Lexed([line] + rest)) == Read(ReadStep(r, Lex(line)), Lexed(rest))
  {
    hide ReadStep, Lex;
    LexedAppend([line], rest);
    assert Lexed([line]) == [Lex(line)];
    assert [Lex(line)][..0] == Lexed([]);
    assert Read(r, [Lex(line)]) == ReadStep(r, Lex(line));
    ReadAppend(r, [Lex(line)], Lexed(rest));
  }

  lemma {:induction false} ReadBody(r: Reading, body: seq<BodyLine>)
    requires PlainBody(body)
    ensures var r' := Read(r, Lexed(BodyTexts(body)));
            r'.adds == r.adds + RealBody(r.path, r.lineno, body) && r'.path == r.path && r'.files == r.files
    decreases body
  {
    hide Lex, HeaderPath, Strip;
    if body != [] {
      var line := body[0];
      ReadLexed(r, BodyText(line), BodyTexts(body[1..]));
      match line {
        case Plus(text) => LexPlus(text);
        case Minus(text) => LexMinus(text); LexKeepsLine("-" + text);
        case NoNewline => LexNoNewline();
      }
      var r' := ReadStep(r, Lex(BodyText(line)));
      assert r'.adds + RealBody(r'.path, r'.lineno, body[1..]) == r.adds + RealBody(r.path, r.lineno, body);
      ReadBody(ReadStep(r, Lex(BodyText(line))), body[1..]);
    } else {
      assert r.adds + [] == r.adds;
    }
  }

  lemma LexKeepsLine(line: string)
    ensures Lex(line).Header? ==> Lex(line).line == line
  {
    LexFaithful(line);
  }

  lemma ReadSection(r: Reading, section: Section)
    requires PlainBody(section.body) && WellFormedSection(section)
    ensures var r' := Read(r, Lexed(SectionText(section)));
            && r'.adds == r.adds + RealBody(r.path, section.start, section.body)
            && r'.path == r.path && r'.files == r.files
  {
    hide Lex, Lexed, Read, SectionHeader, RealBody, WellFormedSection, BodyTexts, PlainBody;
    ReadLexed(r, SectionHeader(section), BodyTexts(section.body));
    LexSectionHeader(section);
    ReadBody(r.(lineno := section.start), section.body);
  }

  lemma {:induction false} ReadSections(r: Reading, sections: seq<Section>)
    requires PlainSections(sections) && forall i :: 0 <= i < |sections| ==> WellFormedSection(sections[i])
    ensures var r' := Read(r, Lexed(SectionTexts(sections)));
            r'.adds == r.adds + RealSections(r.path, sections) && r'.path == r.path && r'.files == r.files
    decreases sections
  {
    hide Lexed, Read, RealBody, WellFormedSection, PlainBody, SectionText;
    if sections == [] {
      ReadNothing(r);
      assert r.adds + [] == r.adds;
    } else {
      var section, rest := sections[0], sections[1..];
      ReadSection(r, section);
      LexedAppend(SectionText(section), SectionTexts(rest));
      ReadAppend(r, Lexed(SectionText(section)), Lexed(SectionTexts(rest)));
      ReadSections(Read(r, Lexed(SectionText(section))), rest);
      var first, others := RealBody(r.path, section.start, section.body), RealSections(r.path, rest);
      assert r.adds + first + others == r.adds + (first + others);
    }
  }

  lemma ReadNothing(r: Reading)
    ensures Read(r, Lexed([])) == r
  {
  }

  lemma {:induction false} ReadPreamble(r: Reading, preamble: seq<string>)
    requires forall i :: 0 <= i < |preamble| ==> PreambleLine(preamble[i])
    ensures Read(r, Lexed(preamble)) == r
  {
    hide Lex, HeaderPath, PreambleLine;
    if preamble != [] {
      var k := |preamble| - 1;
      ReadPreamble(r, preamble[..k]);
      assert Lexed(preamble)[..k] == Lexed(preamble[..k]);
      LexPreamble(preamble[k]);
      LexKeepsLine(preamble[k]);
    }
  }

  lemma ReadFile(r: Reading, file: FilePatch)
    requires WellFormedFile(file) && PlainSections(file.sections)
    ensures var r' := Read(r, Lexed(FileText(file)));
            && r'.path == NameAfter(r.path, file.target)
            && r'.adds == r.adds + RealSections(r'.path, file.sections)
            && r'.files == r.files + if file.target.Path? then {Labelled(file.target.path)} else {}
  {
    hide Lex, Lexed, HeaderPath, TargetText, SectionTexts, PlainSections, Labelled;
    ReadPreamble(r, file.preamble);
    if file.target.NoText? {
      assert file.preamble + [] == file.preamble;
      assert r.adds + [] == r.adds;
    } else {
      hide RealSections;
      var target, sections := TargetText(file.target), SectionTexts(file.sections);
      LexedAppend(file.preamble, [target] + sections);
      ReadAppend(r, Lexed(file.preamble), Lexed([target] + sections));
      ReadLexed(r, target, sections);
      LexTarget(file.target);
      LexKeepsLine(target);
      ReadSections(ReadStep(r, Lex(target)), file.sections);
    }
  }

  lemma {:induction false} ReadFiles(r: Reading, files: seq<FilePatch>)
    requires WellFormed(files) && Plain(files)
    ensures var r' := Read(r, Lexed(DiffText(files)));
            r'.adds == r.adds + Seen(r.path, files) && r'.files == r.files + NamesRead(files)
    decreases files
  {
    hide Lexed, Read, FileText, RealSections, WellFormedFile, PlainSections, NamesRead, NameAfter, Labelled;
    if files == [] {
      ReadNothing(r);
      NoNames();
      assert r.adds + [] == r.adds;
    } else {
      var file, rest := files[0], files[1..];
      LexedAppend(FileText(file), DiffText(rest));
      ReadAppend(r, Lexed(FileText(file)), Lexed(DiffText(rest)));
      ReadFile(r, file);
      ReadFiles(Read(r, Lexed(FileText(file))), rest);
      NamesCons(files);
      var name := NameAfter(r.path, file.target);
      var first, others := RealSections(name, file.sections), Seen(name, rest);
      assert r.adds + first + others == r.adds + (first + others);
    }
  }

  lemma NoNames()
    ensures NamesRead([]) == {}
  {
  }

  lemma NamesCons(files: seq<FilePatch>)
    requires files != []
    ensures NamesRead(files) == NamesRead(files[1..]) + if files[0].target.Path? then {Labelled(files[0].target.path)} else {}
  {
    hide Labelled;
    var rest := files[1..];
    assert forall i :: 0 <= i < |rest| ==> rest[i] == files[i + 1];
    forall p | p in NamesRead(files) ensures p in NamesRead(rest) || (files[0].target.Path? && p == Labelled(files[0].target.path)) {
      var i :| 0 <= i < |files| && files[i].target.Path? && Labelled(files[i].target.path) == p;
      if i > 0 {
        assert rest[i - 1] == files[i];
      }
    }
  }

  /** The plain reading finds every added line of the diff at its number, under the name the
      scorer goes by. */
  lemma ReadingSeesEveryLine(files: seq<FilePatch>)
    requires WellFormed(files) && Plain(files)
    ensures var r := Read(START, Lexed(DiffText(files))); r.adds == Seen(None, files) && r.files == NamesRead(files)
  {
    hide Seen, Read, Lexed, DiffText, NamesRead;
    ReadFiles(START, files);
    assert START.adds + Seen(None, files) == Seen(None, files);
  }

  // ----- when that name is the file's -----

  predicate HasAdditions(file: FilePatch) {
    exists i, j :: 0 <= i < |file.sections| && 0 <= j < |file.sections[i].body| && file.sections[i].body[j].Plus?
  }

  /** Every file with added lines is scored under its own name. */
  ghost predicate NamedRightFrom(before: Option<string>, files: seq<FilePatch>) {
    forall i :: 0 <= i < |files| && HasAdditions(files[i]) ==>
      LastName(before, files[..i + 1]) == TargetPath(files[i].target)
  }

  ghost predicate NamedRight(files: seq<FilePatch>) {
    NamedRightFrom(None, files)
  }

  lemma NamedRightCons(before: Option<string>, files: seq<FilePatch>)
    requires files != []
    ensures var name := NameAfter(before, files[0].target);
            NamedRightFrom(before, files) <==>
              (HasAdditions(files[0]) ==> name == TargetPath(files[0].target)) && NamedRightFrom(name, files[1..])
  {
    hide HasAdditions, NameAfter, TargetPath;
    var name, rest := NameAfter(before, files[0].target), files[1..];
    assert files[..1][1..] == [];
    assert LastName(before, files[..1]) == name;
    forall i | 0 <= i < |rest|
      ensures rest[i] == files[i + 1] && LastName(before, files[..i + 2]) == LastName(name, rest[..i + 1])
    {
      assert files[..i + 2][1..] == rest[..i + 1];
    }
    if NamedRightFrom(before, files) {
      forall i | 0 <= i < |rest| && HasAdditions(rest[i]) ensures LastName(name, rest[..i + 1]) == TargetPath(rest[i].target) {
        assert HasAdditions(files[i + 1]);
      }
    }
    if (HasAdditions(files[0]) ==> name == TargetPath(files[0].target)) && NamedRightFrom(name, rest) {
      forall i | 0 <= i < |files| && HasAdditions(files[i]) ensures LastName(before, files[..i + 1]) == TargetPath(files[i].target) {
        if i > 0 {
          assert rest[i - 1] == files[i];
        }
      }
    }
  }

  lemma {:induction false} BodyUnder(p: Option<string>, q: Option<string>, n: nat, body: seq<BodyLine>)
    ensures |RealBody(p, n, body)| == |RealBody(q, n, body)|
    ensures RealBody(p, n, body) == RealBody(q, n, body) <==> p == q || NoPlus(body)
    decreases body
  {
    hide Strip;
    if body != [] {
      var rest := body[1..];
      assert NoPlus(body) <==> !body[0].Plus? && NoPlus(rest) by {
        assert forall i :: 1 <= i < |body| ==> body[i] == rest[i - 1];
      }
      BodyUnder(p, q, if body[0].Plus? then n + 1 else n, rest);
      if body[0].Plus? && p != q {
        assert RealBody(p, n, body)[0] != RealBody(q, n, body)[0];
      }
    }
  }

  predicate NoPlusIn(sections: seq<Section>) {
    forall i :: 0 <= i < |sections| ==> NoPlus(sections[i].body)
  }

  lemma SameParts<T>(a: seq<T>, b: seq<T>, c: seq<T>, d: seq<T>)
    requires |a| == |c|
    ensures a + b == c + d <==> a == c && b == d
  {
    assert (a + b)[..|a|] == a && (a + b)[|a|..] == b;
    assert (c + d)[..|c|] == c && (c + d)[|c|..] == d;
  }

  lemma {:induction false} SectionsUnder(p: Option<string>, q: Option<string>, sections: seq<Section>)
    ensures |RealSections(p, sections)| == |RealSections(q, sections)|
    ensures RealSections(p, sections) == RealSections(q, sections) <==> p == q || NoPlusIn(sections)
  {
    hide RealBody, NoPlus;
    if sections != [] {
      var section, rest := sections[0], sections[1..];
      assert NoPlusIn(sections) <==> NoPlus(section.body) && NoPlusIn(rest) by {
        assert forall i :: 1 <= i < |sections| ==> sections[i] == rest[i - 1];
      }
      BodyUnder(p, q, section.start, section.body);
      SectionsUnder(p, q, rest);
      SameParts(RealBody(p, section.start, section.body), RealSections(p, rest),
                RealBody(q, section.start, section.body), RealSections(q, rest));
    }
  }

  lemma NoAdditionsIff(file: FilePatch)
    ensures HasAdditions(file) <==> !NoPlusIn(file.sections)
  {
  }

  lemma {:induction false} SeenIsRealIff(before: Option<string>, files: seq<FilePatch>)
    ensures |Seen(before, files)| == |Real(files)|
    ensures Seen(before, files) == Real(files) <==> NamedRightFrom(before, files)
    decreases files
  {
    hide RealSections, NameAfter, TargetPath, NoPlusIn, HasAdditions;
    if files != [] {
      var file, rest := files[0], files[1..];
      var name, path := NameAfter(before, file.target), TargetPath(file.target);
      SectionsUnder(name, path, file.sections);
      NoAdditionsIff(file);
      SeenIsRealIff(name, rest);
      NamedRightCons(before, files);
      SameParts(RealSections(name, file.sections), Seen(name, rest), RealSections(path, file.sections), Real(rest));
    }
  }

  /** The reading is right for plain diffs whose files are scored under their own names. */
  lemma ReadingIsReal(files: seq<FilePatch>)
    requires WellFormed(files) && Plain(files) && NamedRight(files)
    ensures Read(START, Lexed(DiffText(files))).adds == Real(files)
  {
    hide Seen, Read, Lexed, DiffText, NamesRead, Real, NamedRightFrom;
    ReadingSeesEveryLine(files);
    SeenIsRealIff(None, files);
  }

  lemma {:induction false} LastNameSnoc(before: Option<string>, files: seq<FilePatch>, i: nat)
    requires i < |files|
    ensures LastName(before, files[..i + 1]) == NameAfter(LastName(before, files[..i]), files[i].target)
    decreases files
  {
    hide NameAfter;
    var name := NameAfter(before, files[0].target);
    if i == 0 {
      assert files[..1][1..] == [];
    } else {
      LastNameSnoc(name, files[1..], i - 1);
      assert files[..i + 1][1..] == files[1..][..i] && files[..i][1..] == files[1..][..i - 1];
    }
  }

  /** Scored under its own name: a name without a space that git prints as it is, or a quoted one
      that happens to be the name read last before it. */
  lemma NamedRightIff(files: seq<FilePatch>)
    requires WellFormed(files)
    ensures NamedRight(files) <==>
            forall i :: 0 <= i < |files| && HasAdditions(files[i]) ==>
              match files[i].target
              case Path(path) => ' ' !in path
              case Quoted(path, _) => LastName(None, files[..i]) == Some(path)
              case _ => true
  {
    hide HasAdditions, LastName;
    forall i | 0 <= i < |files| && HasAdditions(files[i])
      ensures LastName(None, files[..i + 1]) == TargetPath(files[i].target) <==>
              match files[i].target
              case Path(path) => ' ' !in path
              case Quoted(path, _) => LastName(None, files[..i]) == Some(path)
              case _ => true
    {
      LastNameSnoc(None, files, i);
      AddedToAFile(files[i]);
      LabelledIff(files[i].target);
    }
  }

  lemma AddedToAFile(file: FilePatch)
    requires WellFormedFile(file) && HasAdditions(file)
    ensures file.target.Path? || file.target.Quoted?
  {
    var i, j :| 0 <= i < |file.sections| && 0 <= j < |file.sections[i].body| && file.sections[i].body[j].Plus?;
    assert !NoPlus(file.sections[i].body);
  }

  lemma LabelledIff(target: Target)
    ensures target.Path? ==> (Labelled(target.path) == target.path <==> ' ' !in target.path)
  {
    assert target.Path? ==> |target.path + "\t"| == |target.path| + 1;
  }

  // ----- exactly when the reading is right -----

  lemma {:induction false} ReadAdds(r: Reading, tokens: seq<Token>)
    ensures Adds(Read(r, tokens).adds) == Adds(r.adds) + Additions(tokens)
  {
    hide HeaderPath;
    if tokens != [] {
      var k := |tokens| - 1;
      ReadAdds(r, tokens[..k]);
      var before := Read(r, tokens[..k]);
      if tokens[k].Added? {
        var located := Located(before.path, before.lineno, tokens[k].add);
        assert Adds(before.adds + [located]) == Adds(before.adds) + [tokens[k].add];
      }
    }
  }

  lemma AdditionsLexed(line: string, rest: seq<string>)
    ensures |Additions(Lexed([line] + rest))| == |Additions(Lexed(rest))| + if Lex(line).Added? then 1 else 0
  {
    hide Lex;
    LexedAppend([line], rest);
    assert Lexed([line]) == [Lex(line)];
    assert [Lex(line)][..0] == Lexed([]);
    AdditionsAppend([Lex(line)], Lexed(rest));
  }

  lemma AdditionsLexedAppend(a: seq<string>, b: seq<string>)
    ensures |Additions(Lexed(a + b))| == |Additions(Lexed(a))| + |Additions(Lexed(b))|
  {
    LexedAppend(a, b);
    AdditionsAppend(Lexed(a), Lexed(b));
  }

  lemma {:induction false} BodyCount(path: Option<string>, n: nat, body: seq<BodyLine>)
    ensures |Additions(Lexed(BodyTexts(body)))| <= |RealBody(path, n, body)|
    ensures |Additions(Lexed(BodyTexts(body)))| == |RealBody(path, n, body)| <==> PlainBody(body)
    decreases body
  {
    hide Lex, Additions, Lexed, Strip;
    if body == [] {
      NoAdditions();
    } else {
      var line, rest := body[0], body[1..];
      AdditionsLexed(BodyText(line), BodyTexts(rest));
      match line {
        case Plus(text) => LexPlus(text);
        case Minus(text) => LexMinus(text);
        case NoNewline => LexNoNewline();
      }
      BodyCount(path, if line.Plus? then n + 1 else n, rest);
      assert PlainBody(body) <==> PlainBody(rest) && (line.Plus? ==> !StartsWith(line.text, "++ ")) by {
        assert forall i :: 0 <= i < |rest| ==> rest[i] == body[i + 1];
      }
    }
  }

  lemma NoAdditions()
    ensures Additions(Lexed([])) == []
  {
  }

  lemma {:induction false} SectionsCount(path: Option<string>, sections: seq<Section>)
    requires forall i :: 0 <= i < |sections| ==> WellFormedSection(sections[i])
    ensures |Additions(Lexed(SectionTexts(sections)))| <= |RealSections(path, sections)|
    ensures |Additions(Lexed(SectionTexts(sections)))| == |RealSections(path, sections)| <==> PlainSections(sections)
  {
    hide Lex, Additions, Lexed, RealBody, BodyTexts, PlainBody, WellFormedSection, SectionHeader;
    if sections == [] {
      NoAdditions();
    } else {
      var section, rest := sections[0], sections[1..];
      AdditionsLexedAppend(SectionText(section), SectionTexts(rest));
      AdditionsLexed(SectionHeader(section), BodyTexts(section.body));
      LexSectionHeader(section);
      BodyCount(path, section.start, section.body);
      SectionsCount(path, rest);
      assert PlainSections(sections) <==> PlainSections(rest) && PlainBody(section.body) by {
        assert forall i :: 0 <= i < |rest| ==> rest[i] == sections[i + 1];
      }
    }
  }

  lemma {:induction false} PreambleCount(preamble: seq<string>)
    requires forall i :: 0 <= i < |preamble| ==> PreambleLine(preamble[i])
    ensures Additions(Lexed(preamble)) == []
  {
    hide Lex, PreambleLine;
    if preamble != [] {
      var k := |preamble| - 1;
      PreambleCount(preamble[..k]);
      assert Lexed(preamble)[..k] == Lexed(preamble[..k]);
      LexPreamble(preamble[k]);
    }
  }

  lemma FileCount(file: FilePatch)
    requires WellFormedFile(file)
    ensures |Additions(Lexed(FileText(file)))| <= |RealSections(TargetPath(file.target), file.sections)|
    ensures |Additions(Lexed(FileText(file)))| == |RealSections(TargetPath(file.target), file.sections)| <==> PlainSections(file.sections)
  {
    hide Lex, Additions, Lexed, SectionTexts, PreambleLine, TargetText, TargetPath;
    PreambleCount(file.preamble);
    if file.target.NoText? {
      assert file.preamble + [] == file.preamble;
    } else {
      hide RealSections, PlainSections;
      var target := TargetText(file.target);
      AdditionsLexedAppend(file.preamble, [target] + SectionTexts(file.sections));
      AdditionsLexed(target, SectionTexts(file.sections));
      LexTarget(file.target);
      SectionsCount(TargetPath(file.target), file.sections);
    }
  }

  lemma {:induction false} FilesCount(files: seq<FilePatch>)
    requires WellFormed(files)
    ensures |Additions(Lexed(DiffText(files)))| <= |Real(files)|
    ensures |Additions(Lexed(DiffText(files)))| == |Real(files)| <==> Plain(files)
  {
    hide Additions, Lexed, RealSections, PlainSections, FileText, TargetPath, WellFormedFile;
    if files == [] {
      NoAdditions();
    } else {
      var file, rest := files[0], files[1..];
      AdditionsLexedAppend(FileText(file), DiffText(rest));
      FileCount(file);
      FilesCount(rest);
      assert Plain(files) <==> Plain(rest) && PlainSections(file.sections) by {
        assert forall i :: 0 <= i < |rest| ==> rest[i] == files[i + 1];
      }
    }
  }

  /** The tools see every added line where it really is exactly when no added line's content
      starts with `++ `, since that line would be taken for a file header, and every file with
      added lines is scored under its own name. */
  lemma LinesAreReadRightIff(files: seq<FilePatch>)
    requires WellFormed(files)
    ensures Read(START, Lexed(DiffText(files))).adds == Real(files) <==> Plain(files) && NamedRight(files)
  {
    hide WellFormed, Plain, Real, DiffText, Lexed, Read, Additions, NamedRightFrom, Seen;
    if Plain(files) {
      ReadingSeesEveryLine(files);
      SeenIsRealIff(None, files);
    }
    FilesCount(files);
    ReadAdds(START, Lexed(DiffText(files)));
    assert |Adds(Read(START, Lexed(DiffText(files))).adds)| == |Read(START, Lexed(DiffText(files))).adds|;
  }

  /** Adding a line whose content is `++ x` is misread: the counterexample to the unconditional claim. */
  lemma PlusPlusIsMisread()
    ensures var files := [FilePatch([], Path("a.go"), [Section("0,0", 1, Some(2), "", [Plus("++ x"), Plus("y")])])];
            WellFormed(files) && Read(START, Lexed(DiffText(files))).adds != Real(files)
  {
    hide DiffText, Lexed, Read, Real;
    var body := [Plus("++ x"), Plus("y")];
    var files := [FilePatch([], Path("a.go"), [Section("0,0", 1, Some(2), "", body)])];
    assert "++ x"[..3] == "++ ";
    assert body[0].Plus? && StartsWith(body[0].text, "++ ");
    assert !PlainBody(files[0].sections[0].body);
    assert !PlainSections(files[0].sections);
    LinesAreReadRightIff(files);
  }

  // ----- on text: lines as git ends them, split as the tools split them -----

  predicate UnbrokenAdditions(files: seq<FilePatch>) {
    forall i, j, k :: 0 <= i < |files| && 0 <= j < |files[i].sections| && 0 <= k < |files[i].sections[j].body| ==>
      files[i].sections[j].body[k].Plus? ==> Unbroken(files[i].sections[j].body[k].text)
  }

  predicate UnbrokenTarget(target: Target) {
    match target case Path(path) => Unbroken(path) case Quoted(_, printed) => Unbroken(printed) case _ => true
  }

  predicate UnbrokenFrame(section: Section) {
    && Unbroken(section.oldRange) && Unbroken(section.heading)
    && forall k :: 0 <= k < |section.body| && section.body[k].Minus? ==> Unbroken(section.body[k].text)
  }

  /** No break inside anything but added lines. */
  predicate UnbrokenElsewhere(files: seq<FilePatch>) {
    forall i :: 0 <= i < |files| ==>
      && AllUnbroken(files[i].preamble) && UnbrokenTarget(files[i].target)
      && forall j :: 0 <= j < |files[i].sections| ==> UnbrokenFrame(files[i].sections[j])
  }

  predicate UnbrokenPlus(body: seq<BodyLine>) {
    forall k :: 0 <= k < |body| && body[k].Plus? ==> Unbroken(body[k].text)
  }

  lemma FixedTexts()
    ensures Unbroken("+") && Unbroken("-") && Unbroken(BodyText(NoNewline))
    ensures Unbroken("@@ -") && Unbroken(" +") && Unbroken(",") && Unbroken(" @@") && Unbroken("")
    ensures Unbroken("+++ b/") && Unbroken("+++ \"b/") && Unbroken("\"") && Unbroken("\t") && Unbroken("+++ /dev/null")
  {
  }

  lemma {:induction false} UnbrokenBody(body: seq<BodyLine>)
    requires UnbrokenPlus(body) && forall k :: 0 <= k < |body| && body[k].Minus? ==> Unbroken(body[k].text)
    ensures AllUnbroken(BodyTexts(body))
  {
    hide Unbroken;
    if body != [] {
      assert forall k :: 0 <= k < |body[1..]| ==> body[1..][k] == body[k + 1];
      UnbrokenBody(body[1..]);
      FixedTexts();
      match body[0]
      case Plus(text) => UnbrokenAppend("+", text);
      case Minus(text) => UnbrokenAppend("-", text);
      case NoNewline =>
    }
  }

  lemma UnbrokenHeader(section: Section)
    requires Unbroken(section.oldRange) && Unbroken(section.heading)
    ensures Unbroken(SectionHeader(section))
  {
    hide Unbroken, Decimal;
    FixedTexts();
    DigitsAreUnbroken(Decimal(section.start));
    if section.count.Some? {
      DigitsAreUnbroken(Decimal(section.count.value));
      UnbrokenAppend(",", Decimal(section.count.value));
    }
    var a, b := " +" + Decimal(section.start), " @@" + section.heading;
    UnbrokenAppend(" +", Decimal(section.start));
    UnbrokenAppend(" @@", section.heading);
    UnbrokenAppend(CountSuffix(section.count), b);
    UnbrokenAppend(a, CountSuffix(section.count) + b);
    UnbrokenAppend("@@ -", section.oldRange);
    UnbrokenAppend("@@ -" + section.oldRange, a + (CountSuffix(section.count) + b));
  }

  lemma {:induction false} UnbrokenSections(sections: seq<Section>)
    requires forall j :: 0 <= j < |sections| ==> UnbrokenFrame(sections[j]) && UnbrokenPlus(sections[j].body)
    ensures AllUnbroken(SectionTexts(sections))
  {
    hide Unbroken, SectionHeader, BodyTexts;
    if sections != [] {
      assert forall j :: 0 <= j < |sections[1..]| ==> sections[1..][j] == sections[j + 1];
      UnbrokenSections(sections[1..]);
      UnbrokenHeader(sections[0]);
      UnbrokenBody(sections[0].body);
    }
  }

  lemma UnbrokenLabel(name: string)
    requires Unbroken(name)
    ensures Unbroken(Labelled(name))
  {
    hide Unbroken;
    FixedTexts();
    UnbrokenAppend(name, "\t");
  }

  lemma UnbrokenTargetText(target: Target)
    requires !target.NoText? && UnbrokenTarget(target)
    ensures Unbroken(TargetText(target))
  {
    hide Unbroken, Labelled;
    FixedTexts();
    match target
    case Path(path) =>
      UnbrokenLabel(path);
      UnbrokenAppend("+++ b/", Labelled(path));
    case Quoted(_, printed) =>
      UnbrokenAppend(printed, "\"");
      UnbrokenLabel(printed + "\"");
      UnbrokenAppend("+++ \"b/", Labelled(printed + "\""));
    case DevNull =>
  }

  lemma {:induction false} UnbrokenDiff(files: seq<FilePatch>)
    requires UnbrokenElsewhere(files) && UnbrokenAdditions(files)
    ensures AllUnbroken(DiffText(files))
  {
    hide Unbroken, TargetText, SectionTexts, UnbrokenFrame, UnbrokenTarget;
    if files != [] {
      var file, rest := files[0], files[1..];
      assert forall i :: 0 <= i < |rest| ==> rest[i] == files[i + 1];
      assert UnbrokenAdditions(rest);
      UnbrokenDiff(rest);
      if !file.target.NoText? {
        UnbrokenTargetText(file.target);
        forall j | 0 <= j < |file.sections| ensures UnbrokenPlus(file.sections[j].body) {
          assert file.sections[j] == files[0].sections[j];
        }
        UnbrokenSections(file.sections);
      }
    }
  }

  lemma {:induction false} AddsAreLines(lines: seq<string>)
    ensures forall k :: 0 <= k < |Read(START, Lexed(lines)).adds| ==> Read(START, Lexed(lines)).adds[k].add.line in lines
  {
    hide Lex, HeaderPath;
    if lines != [] {
      var n := |lines| - 1;
      AddsAreLines(lines[..n]);
      assert Lexed(lines)[..n] == Lexed(lines[..n]);
      LexFaithful(lines[n]);
    }
  }

  lemma {:induction false} RealBodyHolds(path: Option<string>, n: nat, body: seq<BodyLine>, k: nat) returns (m: nat)
    requires k < |body| && body[k].Plus?
    ensures m < |RealBody(path, n, body)| && RealBody(path, n, body)[m].add.line == "+" + body[k].text
    decreases body
  {
    hide Strip;
    if k == 0 {
      m := 0;
    } else if body[0].Plus? {
      m := RealBodyHolds(path, n + 1, body[1..], k - 1);
      m := m + 1;
    } else {
      m := RealBodyHolds(path, n, body[1..], k - 1);
    }
  }

  lemma {:induction false} RealSectionsHold(path: Option<string>, sections: seq<Section>, j: nat, k: nat) returns (m: nat)
    requires j < |sections| && k < |sections[j].body| && sections[j].body[k].Plus?
    ensures m < |RealSections(path, sections)| && RealSections(path, sections)[m].add.line == "+" + sections[j].body[k].text
    decreases sections
  {
    hide RealBody;
    if j == 0 {
      m := RealBodyHolds(path, sections[0].start, sections[0].body, k);
    } else {
      m := RealSectionsHold(path, sections[1..], j - 1, k);
      m := m + |RealBody(path, sections[0].start, sections[0].body)|;
    }
  }

  lemma {:induction false} RealHolds(files: seq<FilePatch>, i: nat, j: nat, k: nat) returns (m: nat)
    requires i < |files| && j < |files[i].sections| && k < |files[i].sections[j].body| && files[i].sections[j].body[k].Plus?
    ensures m < |Real(files)| && Real(files)[m].add.line == "+" + files[i].sections[j].body[k].text
    decreases files
  {
    hide RealSections;
    if i == 0 {
      m := RealSectionsHold(TargetPath(files[0].target), files[0].sections, j, k);
    } else {
      m := RealHolds(files[1..], i - 1, j, k);
      m := m + |RealSections(TargetPath(files[0].target), files[0].sections)|;
    }
  }

  /** A line with a break inside is never read whole. */
  lemma BrokenIsMisread(files: seq<FilePatch>, text: string)
    requires !UnbrokenAdditions(files)
    ensures Read(START, Lexed(SplitLines(text))).adds != Real(files)
  {
    hide Real, Read, Lexed, SplitLines, Unbroken;
    var i, j, k :| 0 <= i < |files| && 0 <= j < |files[i].sections| && 0 <= k < |files[i].sections[j].body|
                   && files[i].sections[j].body[k].Plus? && !Unbroken(files[i].sections[j].body[k].text);
    var m := RealHolds(files, i, j, k);
    UnbrokenAppend("+", files[i].sections[j].body[k].text);
    PiecesAreUnbroken(text);
    AddsAreLines(SplitLines(text));
  }

  /** From the text git writes, whichever way its lines end: the tools see every added line whole
      and where it really is exactly when no added line has a break inside or content starting
      with `++ `, and every file with added lines is scored under its own name. */
  lemma DiffIsReadRightIff(files: seq<FilePatch>, written: seq<Ended>)
    requires WellFormed(files) && UnbrokenElsewhere(files) && LinesOf(written) == DiffText(files)
    ensures Read(START, Lexed(SplitLines(Written(written)))).adds == Real(files) <==>
            UnbrokenAdditions(files) && Plain(files) && NamedRight(files)
  {
    hide Read, Lexed, Real, Plain, NamedRight, UnbrokenAdditions, UnbrokenElsewhere, WellFormed, DiffText, LinesOf,
         AllUnbroken, SplitLines, Written;
    if UnbrokenAdditions(files) {
      UnbrokenDiff(files);
      SplitWritten(written);
      LinesAreReadRightIff(files);
    } else {
      BrokenIsMisread(files, Written(written));
    }
  }

  /** An added line with a form feed in it becomes two lines. */
  lemma FormFeedIsMisread(written: seq<Ended>)
    requires LinesOf(written) == DiffText([FilePatch([], Path("a.go"), [Section("0,0", 1, None, "", [Plus("a\U{0C}+b")])])])
    ensures var files := [FilePatch([], Path("a.go"), [Section("0,0", 1, None, "", [Plus("a\U{0C}+b")])])];
            Read(START, Lexed(SplitLines(Written(written)))).adds != Real(files)
  {
    hide Read, Lexed, Real, DiffText, LinesOf, SplitLines, Written;
    var body := [Plus("a\U{0C}+b")];
    var files := [FilePatch([], Path("a.go"), [Section("0,0", 1, None, "", body)])];
    assert IsBreak("a\U{0C}+b"[1]);
    assert !Unbroken(files[0].sections[0].body[0].text);
    BrokenIsMisread(files, Written(written));
  }

  // ----- what was removed -----

  /** Non-blank removed texts; with `all`, also those whose content starts with `--`, which the
      filter never counts. */
  function RemovedBody(body: seq<BodyLine>, all: bool): multiset<string> {
    if body == [] then multiset{} else
    RemovedBody(body[1..], all) +
    match body[0]
    case Minus(text) => if Counted(text) || (all && Strip(text) != "") then multiset{Strip(text)} else multiset{}
    case _ => multiset{}
  }

  function RemovedSections(sections: seq<Section>, all: bool): multiset<string> {
    if sections == [] then multiset{} else RemovedBody(sections[0].body, all) + RemovedSections(sections[1..], all)
  }

  function RemovedTexts(files: seq<FilePatch>, all: bool): multiset<string> {
    if files == [] then multiset{} else RemovedSections(files[0].sections, all) + RemovedTexts(files[1..], all)
  }

  lemma {:induction false} RemovalsAppend(a: seq<Token>, b: seq<Token>)
    ensures Removals(a + b) == Removals(a) + Removals(b)
  {
    if b == [] {
      assert a + b == a;
    } else {
      var k := |b| - 1;
      assert (a + b)[..|a| + k] == a + b[..k];
      RemovalsAppend(a, b[..k]);
    }
  }

  lemma RemovalsLexedAppend(a: seq<string>, b: seq<string>)
    ensures Removals(Lexed(a + b)) == Removals(Lexed(a)) + Removals(Lexed(b))
  {
    LexedAppend(a, b);
    RemovalsAppend(Lexed(a), Lexed(b));
  }

  lemma RemovalsOfOne(line: string)
    ensures Removals(Lexed([line])) == if Lex(line).Removed? then multiset{Lex(line).text} else multiset{}
  {
    hide Lex;
    assert Lexed([line])[..0] == Lexed([]);
  }

  lemma {:induction false} BodyRemovals(body: seq<BodyLine>)
    ensures Removals(Lexed(BodyTexts(body))) == RemovedBody(body, false)
  {
    hide Lex, Lexed, Strip, Counted, Removals;
    if body == [] {
      NoneRemoved();
    } else {
      RemovalsLexedAppend([BodyText(body[0])], BodyTexts(body[1..]));
      RemovalsOfOne(BodyText(body[0]));
      match body[0] {
        case Plus(text) => LexPlus(text);
        case Minus(text) => LexMinus(text);
        case NoNewline => LexNoNewline();
      }
      BodyRemovals(body[1..]);
    }
  }

  lemma NoneRemoved()
    ensures Removals(Lexed([])) == multiset{}
  {
  }

  lemma {:induction false} SectionsRemovals(sections: seq<Section>)
    requires forall i :: 0 <= i < |sections| ==> WellFormedSection(sections[i])
    ensures Removals(Lexed(SectionTexts(sections))) == RemovedSections(sections, false)
  {
    hide Lex, Lexed, Removals, RemovedBody, BodyTexts, SectionHeader, WellFormedSection;
    if sections == [] {
      NoneRemoved();
    } else {
      var section, rest := sections[0], sections[1..];
      RemovalsLexedAppend(SectionText(section), SectionTexts(rest));
      RemovalsLexedAppend([SectionHeader(section)], BodyTexts(section.body));
      RemovalsOfOne(SectionHeader(section));
      LexSectionHeader(section);
      BodyRemovals(section.body);
      SectionsRemovals(rest);
    }
  }

  lemma {:induction false} PreambleRemovals(preamble: seq<string>)
    requires forall i :: 0 <= i < |preamble| ==> PreambleLine(preamble[i])
    ensures Removals(Lexed(preamble)) == multiset{}
  {
    hide Lex, PreambleLine;
    if preamble != [] {
      var k := |preamble| - 1;
      PreambleRemovals(preamble[..k]);
      assert Lexed(preamble)[..k] == Lexed(preamble[..k]);
      LexPreamble(preamble[k]);
    }
  }

  lemma FileRemovals(file: FilePatch)
    requires WellFormedFile(file)
    ensures Removals(Lexed(FileText(file))) == RemovedSections(file.sections, false)
  {
    hide Lex, Lexed, Removals, SectionTexts, PreambleLine, TargetText;
    PreambleRemovals(file.preamble);
    if file.target.NoText? {
      assert file.preamble + [] == file.preamble;
    } else {
      hide RemovedSections;
      var target, sections := TargetText(file.target), SectionTexts(file.sections);
      RemovalsLexedAppend(file.preamble, [target] + sections);
      RemovalsLexedAppend([target], sections);
      RemovalsOfOne(target);
      LexTarget(file.target);
      SectionsRemovals(file.sections);
    }
  }

  lemma {:induction false} FilesRemovals(files: seq<FilePatch>)
    requires WellFormed(files)
    ensures Removals(Lexed(DiffText(files))) == RemovedTexts(files, false)
  {
    hide Lexed, Removals, RemovedSections, FileText, WellFormedFile;
    if files == [] {
      NoneRemoved();
    } else {
      RemovalsLexedAppend(FileText(files[0]), DiffText(files[1..]));
      FileRemovals(files[0]);
      FilesRemovals(files[1..]);
    }
  }

  // ----- the gate -----

  /** What the scorer reads from the stripped diff, whatever the names. */
  lemma GateReadsWhatItSees(files: seq<FilePatch>, path: string)
    requires WellFormed(files) && Plain(files)
    ensures var scan := ScanLines(Stripped(DiffText(files)));
            && scan.Scan?
            && (path in scan.added <==> path in NamesRead(files) && GoProduction(path))
            && (path in scan.added ==>
                  scan.added[path] == SurvivingNumbers(Seen(None, files), RemovedTexts(files, false), path))
  {
    hide WellFormed, Plain, Seen, DiffText, Lexed, Read, Removals, RemovedTexts, ScanLines, Stripped, SurvivingNumbers,
         NamesRead, GoProduction;
    ScorerReadsTheSurvivingNumbers(DiffText(files));
    ReadingSeesEveryLine(files);
    FilesRemovals(files);
  }

  /** A Go name that is read is a file's own, without a space: a tab behind it would hide the suffix. */
  lemma GoNamesRead(files: seq<FilePatch>, path: string)
    requires GoProduction(path)
    ensures path in NamesRead(files) <==> path in Paths(files) && ' ' !in path
  {
    forall i | 0 <= i < |files| && files[i].target.Path?
      ensures Labelled(files[i].target.path) == path <==> files[i].target.path == path && ' ' !in path
    {
      TabHidesTheSuffix(files[i].target.path);
    }
  }

  lemma TabHidesTheSuffix(path: string)
    ensures !GoProduction(path + "\t")
  {
    var name := path + "\t";
    assert |name| >= 3 ==> name[|name| - 3..][2] == '\t';
    assert ".go"[2] == 'o';
  }

  /** End to end: for every well-formed plain diff whose files are scored under their own names,
      the scorer reads from the stripped text, for each Go production file, exactly the real
      numbers of the added lines that are not moves. */
  lemma GateReadsTheRealNewLines(files: seq<FilePatch>, path: string)
    requires WellFormed(files) && Plain(files) && NamedRight(files)
    ensures var scan := ScanLines(Stripped(DiffText(files)));
            && scan.Scan?
            && (path in scan.added <==> path in Paths(files) && ' ' !in path && GoProduction(path))
            && (path in scan.added ==>
                  scan.added[path] == SurvivingNumbers(Real(files), RemovedTexts(files, false), path))
  {
    hide WellFormed, Plain, Real, Seen, DiffText, RemovedTexts, ScanLines, Stripped, SurvivingNumbers, NamesRead, Paths,
         GoProduction, NamedRightFrom;
    GateReadsWhatItSees(files, path);
    SeenIsRealIff(None, files);
    if GoProduction(path) {
      GoNamesRead(files, path);
    }
  }

  /** The same from the text git writes: the tools see the lines of the diff. */
  lemma GateReadsTheLines(files: seq<FilePatch>, written: seq<Ended>)
    requires UnbrokenElsewhere(files) && UnbrokenAdditions(files) && LinesOf(written) == DiffText(files)
    ensures ScanLines(SplitLines(StripText(Written(written)))) == ScanLines(Stripped(DiffText(files)))
  {
    hide UnbrokenElsewhere, UnbrokenAdditions, DiffText, LinesOf, SplitLines, StripText, Stripped, ScanLines, AllUnbroken, Written;
    UnbrokenDiff(files);
    SplitWritten(written);
    OutputSplitsIntoItsLines(Written(written));
  }

  /** A coverage block is counted exactly when a real, unmoved added line of its file lies in it. */
  lemma GateCountsExactlyTheNewBlocks(files: seq<FilePatch>, key: Key)
    requires WellFormed(files) && Plain(files) && NamedRight(files)
    ensures var added, removed := Real(files), RemovedTexts(files, false);
            var scan := ScanLines(Stripped(DiffText(files)));
            scan.Scan? &&
            (Touches(scan.added, key) <==>
               && key.path in Paths(files) && ' ' !in key.path && GoProduction(key.path)
               && exists k: nat :: k < |added| && Survives(Adds(added), k, removed) && added[k].path == Some(key.path)
                                   && key.coords.lo <= added[k].number <= key.coords.hi)
  {
    hide WellFormed, Plain, Real, DiffText, RemovedTexts, ScanLines, Stripped, Paths, GoProduction, Survives, NamedRightFrom;
    GateReadsTheRealNewLines(files, key.path);
    var scan := ScanLines(Stripped(DiffText(files)));
    var added, removed := Real(files), RemovedTexts(files, false);
    if Touches(scan.added, key) {
      var n :| n in scan.added[key.path] && key.coords.lo <= n <= key.coords.hi;
      var k: nat :| k < |added| && Survives(Adds(added), k, removed) && added[k].path == Some(key.path) && added[k].number == n;
    }
    if k: nat :| k < |added| && Survives(Adds(added), k, removed) && added[k].path == Some(key.path)
                 && key.coords.lo <= added[k].number <= key.coords.hi {
      assert added[k].number in SurvivingNumbers(added, removed, key.path);
    }
  }

  /** A new line in `a b.go` is not scored: the name read ends in a tab. */
  lemma SpacedPathIsNotScored()
    ensures var files := [FilePatch([], Path("a b.go"), [Section("0,0", 1, None, "", [Plus("x")])])];
            var scan := ScanLines(Stripped(DiffText(files)));
            && WellFormed(files) && Plain(files) && "a b.go" in Paths(files) && GoProduction("a b.go")
            && scan.Scan? && "a b.go" !in scan.added
  {
    hide ScanLines, Stripped, DiffText, NamesRead, Seen, RemovedTexts, SurvivingNumbers;
    var body := [Plus("x")];
    var files := [FilePatch([], Path("a b.go"), [Section("0,0", 1, None, "", body)])];
    assert files[0].target.Path?;
    assert !StartsWith("x", "++ ");
    assert PlainBody(files[0].sections[0].body);
    assert PlainSections(files[0].sections);
    assert "a b.go"[3..] == ".go";
    assert |"_test.go"| > |"a b.go"|;
    GateReadsWhatItSees(files, "a b.go");
    assert "a b.go"[1] == ' ';
    GoNamesRead(files, "a b.go");
  }

  function OneLine(number: nat, text: string): seq<Section> {
    [Section("0,0", number, None, "", [Plus(text)])]
  }

  lemma OneLineIs(path: Option<string>, number: nat, text: string)
    ensures RealSections(path, OneLine(number, text)) == [Located(path, number, Add("+" + text, Strip(text)))]
    ensures RemovedSections(OneLine(number, text), false) == multiset{}
  {
    hide Strip;
    var body := [Plus(text)];
    assert body[1..] == [] && OneLine(number, text)[1..] == [];
    assert RealBody(path, number + 1, []) == [];
    assert RealBody(path, number, body) == [Located(path, number, Add("+" + text, Strip(text)))];
    assert RemovedBody(body, false) == multiset{};
  }

  lemma TwoFilesSeen(files: seq<FilePatch>, printed: string)
    requires files == [FilePatch([], Path("a.go"), OneLine(3, "x")), FilePatch([], Quoted("\U{E9}.go", printed), OneLine(7, "y"))]
    ensures Seen(None, files) == [Located(Some("a.go"), 3, Add("+" + "x", Strip("x"))), Located(Some("a.go"), 7, Add("+" + "y", Strip("y")))]
    ensures RemovedTexts(files, false) == multiset{} && "a.go" in NamesRead(files)
  {
    hide RealSections, RemovedSections, OneLine, Strip;
    OneLineIs(Some("a.go"), 3, "x");
    OneLineIs(Some("a.go"), 7, "y");
    assert files[1..] == [files[1]] && files[1..][1..] == [];
    assert files[0].target.Path? && Labelled(files[0].target.path) == "a.go";
    assert Seen(Some("a.go"), files[1..]) == RealSections(Some("a.go"), files[1].sections) + [];
    assert RemovedTexts(files[1..], false) == RemovedSections(files[1].sections, false) + multiset{};
  }

  lemma TwoFilesPlain(files: seq<FilePatch>, printed: string)
    requires files == [FilePatch([], Path("a.go"), OneLine(3, "x")), FilePatch([], Quoted("\U{E9}.go", printed), OneLine(7, "y"))]
    ensures WellFormed(files) && Plain(files)
  {
    assert !StartsWith("x", "++ ") && !StartsWith("y", "++ ");
    assert PlainSections(files[0].sections) && PlainSections(files[1].sections);
  }

  /** A new line at 7 in a file whose name git quotes is scored as line 7 of the file before it. */
  lemma QuotedPathIsScoredElsewhere(files: seq<FilePatch>, printed: string)
    requires files == [FilePatch([], Path("a.go"), OneLine(3, "x")), FilePatch([], Quoted("\U{E9}.go", printed), OneLine(7, "y"))]
    ensures var scan := ScanLines(Stripped(DiffText(files)));
            WellFormed(files) && Plain(files) && scan.Scan? && "a.go" in scan.added && 7 in scan.added["a.go"]
  {
    hide ScanLines, Stripped, DiffText, NamesRead, Seen, RemovedTexts, CountText, OneLine;
    TwoFilesPlain(files, printed);
    TwoFilesSeen(files, printed);
    assert "a.go"[1..] == ".go" && |"_test.go"| > |"a.go"|;
    GateReadsWhatItSees(files, "a.go");
    var seen := Seen(None, files);
    assert Survives(Adds(seen), 1, multiset{}) && seen[1].path == Some("a.go") && seen[1].number == 7;
    assert 7 in SurvivingNumbers(seen, multiset{}, "a.go");
  }

  /** Removing lines whose content starts with `--` goes uncounted: the promise that a removal
      cancels an addition one for one holds for a text exactly when no such removal has that
      text, or the counted ones already cancel every addition. */
  lemma OneForOneExactlyWithoutDashes(files: seq<FilePatch>, text: string)
    requires WellFormed(files) && text != ""
    ensures var added := CountText(Additions(Lexed(DiffText(files))), text);
            var kept := CountText(Additions(Lexed(Stripped(DiffText(files)))), text);
            var counted, all := RemovedTexts(files, false)[text], RemovedTexts(files, true)[text];
            kept == Excess(added, all) <==> counted == all || added <= counted
  {
    hide DiffText, Lexed, Stripped, Additions, CountText, Survivors, WellFormed;
    KeepsTheExcess(DiffText(files), text);
    FilesRemovals(files);
    CountedAmongAll(files, text);
  }

  lemma {:induction false} CountedAmongAll(files: seq<FilePatch>, text: string)
    ensures RemovedTexts(files, false)[text] <= RemovedTexts(files, true)[text]
  {
    if files != [] {
      SectionsCountedAmongAll(files[0].sections, text);
      CountedAmongAll(files[1..], text);
    }
  }

  lemma {:induction false} SectionsCountedAmongAll(sections: seq<Section>, text: string)
    ensures RemovedSections(sections, false)[text] <= RemovedSections(sections, true)[text]
  {
    if sections != [] {
      BodyCountedAmongAll(sections[0].body, text);
      SectionsCountedAmongAll(sections[1..], text);
    }
  }

  lemma {:induction false} BodyCountedAmongAll(body: seq<BodyLine>, text: string)
    ensures RemovedBody(body, false)[text] <= RemovedBody(body, true)[text]
  {
    hide Counted, Strip;
    if body != [] {
      BodyCountedAmongAll(body[1..], text);
    }
  }

  lemma ExampleRemoved(section: Section, files: seq<FilePatch>)
    requires section.body == [Minus("--x"), Plus("--x")] && files == [FilePatch([], Path("a.go"), [section])]
    ensures RemovedTexts(files, true) == multiset{"--x"} && RemovedTexts(files, false) == multiset{}
  {
    hide RemovedBody;
    ExampleBody(section.body);
    assert [section][1..] == [] && files[1..] == [];
    assert RemovedSections([section], true) == multiset{"--x"};
    assert RemovedSections([section], false) == multiset{};
  }

  lemma ExampleReal(section: Section, files: seq<FilePatch>)
    requires section.start == 1 && section.body == [Minus("--x"), Plus("--x")]
    requires files == [FilePatch([], Path("a.go"), [section])]
    ensures Plain(files) && CountText(Adds(Real(files)), "--x") == 1
  {
    hide RealBody, PlainBody;
    ExampleBody(section.body);
    assert [section][1..] == [] && files[1..] == [];
    var located := Located(Some("a.go"), 1, Add("+" + "--x", "--x"));
    assert RealSections(Some("a.go"), [section]) == [located];
    assert Real(files) == [located];
    assert Adds([located]) == [located.add];
    assert [located.add][..0] == Adds([]);
    assert PlainSections(files[0].sections);
  }

  lemma ExampleNamed(files: seq<FilePatch>)
    requires WellFormed(files) && |files| == 1 && files[0].target == Path("a.go")
    ensures NamedRight(files)
  {
    hide NamedRight, WellFormed;
    NamedRightIff(files);
  }

  /** Moving the line `--x` is not recognised: the counterexample to one-for-one matching. */
  lemma DashesAreNotMatched()
    ensures var files := [FilePatch([], Path("a.go"), [Section("1", 1, None, "", [Minus("--x"), Plus("--x")])])];
            && WellFormed(files)
            && RemovedTexts(files, true)["--x"] == 1
            && CountText(Additions(Lexed(DiffText(files))), "--x") == 1
            && CountText(Additions(Lexed(Stripped(DiffText(files)))), "--x") == 1
  {
    hide Lexed, Stripped, DiffText, Survivors, Additions, Read, Plain, Real, RemovedTexts, CountText, Adds, NamedRight;
    var section := Section("1", 1, None, "", [Minus("--x"), Plus("--x")]);
    var files := [FilePatch([], Path("a.go"), [section])];
    ExampleRemoved(section, files);
    ExampleReal(section, files);
    ExampleNamed(files);
    ReadingIsReal(files);
    ReadAdds(START, Lexed(DiffText(files)));
    NoAddsAtStart();
    KeepsTheExcess(DiffText(files), "--x");
    FilesRemovals(files);
  }

  lemma NoAddsAtStart()
    ensures forall adds :: Adds(START.adds) + adds == adds
  {
  }

  lemma ExampleBody(body: seq<BodyLine>)
    requires body == [Minus("--x"), Plus("--x")]
    ensures RemovedBody(body, true) == multiset{"--x"} && RemovedBody(body, false) == multiset{}
    ensures RealBody(Some("a.go"), 1, body) == [Located(Some("a.go"), 1, Add("+" + "--x", "--x"))]
    ensures PlainBody(body)
  {
    assert Strip("--x") == "--x";
    var last := [Plus("--x")];
    assert body[1..] == last && last[1..] == [];
    assert RemovedBody(last, true) == multiset{} && RemovedBody(last, false) == multiset{};
    assert "--x"[..2] == "--";
  }
}
