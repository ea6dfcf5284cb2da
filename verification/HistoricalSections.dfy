/** `_mask_historical_sections`: blanks historical Markdown sections, keeping line numbers. */
module HistoricalSections {
  import opened Text

  datatype Heading = Heading(level: nat, historical: bool)

  function Hashes(line: string): nat {
    if line != [] && line[0] == '#' then 1 + Hashes(line[1..]) else 0
  }

  function Lower(c: char): char {
    if 'A' <= c <= 'Z' then c - 'A' + 'a' else c
  }

  predicate MentionsAt(text: string, marker: string, at: nat) {
    at + |marker| <= |text| && forall i :: 0 <= i < |marker| ==> Lower(text[at + i]) == marker[i]
  }

  predicate Mentions(text: string, marker: string) {
    exists at :: 0 <= at <= |text| && MentionsAt(text, marker, at)
  }

  predicate NamesHistory(title: string) {
    || Mentions(title, "changelog") || Mentions(title, "historical")
    || Mentions(title, "release history") || Mentions(title, "previous review")
  }

  /** Two to six hashes, whitespace and a title; the section is historical if the title says so. */
  function HeadingOf(line: string): Option<Heading> {
    var level := Hashes(line);
    if 2 <= level <= 6 && level + 1 < |line| && IsSpace(line[level]) then
      Some(Heading(level, NamesHistory(line)))
    else None
  }

  predicate IsHistorical(line: string) {
    HeadingOf(line).Some? && HeadingOf(line).value.historical
  }

  /** A heading as shallow as `level`, which ends a section of that level. */
  predicate Ends(line: string, level: nat) {
    HeadingOf(line).Some? && HeadingOf(line).value.level <= level
  }

  /** Line `i` lies in the section of the heading at `h`. */
  ghost predicate InSection(lines: seq<string>, h: nat, i: nat)
    requires h <= i < |lines| && HeadingOf(lines[h]).Some?
  {
    forall j :: h < j <= i ==> !Ends(lines[j], HeadingOf(lines[h]).value.level)
  }

  /** `h` is the last historical heading at or before `i`. */
  ghost predicate IsLast(lines: seq<string>, h: nat, i: nat)
    requires i < |lines|
  {
    h <= i && IsHistorical(lines[h]) && forall j :: h < j <= i ==> !IsHistorical(lines[j])
  }

  /** Blanked: the last historical heading at or before the line still governs it. */
  ghost predicate Blanked(lines: seq<string>, i: nat)
    requires i < |lines|
  {
    exists h: nat :: IsLast(lines, h, i) && InSection(lines, h, i)
  }

  /** What the cutoff variable means after line `i`. */
  ghost predicate CutoffOK(lines: seq<string>, i: nat, cutoff: Option<nat>)
    requires i < |lines|
  {
    match cutoff
    case Some(level) => exists h: nat :: IsLast(lines, h, i) && InSection(lines, h, i) && HeadingOf(lines[h]).value.level == level
    case None => !Blanked(lines, i)
  }

  /** The heading step of the loop. */
  function NextCutoff(cutoff: Option<nat>, line: string): Option<nat> {
    match HeadingOf(line)
    case None => cutoff
    case Some(heading) =>
      if heading.historical then Some(heading.level)
      else if cutoff.Some? && heading.level <= cutoff.value then None
      else cutoff
  }

  lemma CutoffStep(lines: seq<string>, i: nat, cutoff: Option<nat>)
    requires 0 < i < |lines| && CutoffOK(lines, i - 1, cutoff)
    ensures CutoffOK(lines, i, NextCutoff(cutoff, lines[i]))
  {
    hide HeadingOf;
    var next := NextCutoff(cutoff, lines[i]);
    if IsHistorical(lines[i]) {
      assert IsLast(lines, i, i) && InSection(lines, i, i);
    } else if next.Some? {
      var h: nat :| IsLast(lines, h, i - 1) && InSection(lines, h, i - 1) && HeadingOf(lines[h]).value.level == next.value;
      assert IsLast(lines, h, i) && InSection(lines, h, i);
    } else {
      forall h: nat | IsLast(lines, h, i) ensures !InSection(lines, h, i) {
        assert IsLast(lines, h, i - 1);
        if cutoff.Some? {
          var h': nat :| IsLast(lines, h', i - 1) && InSection(lines, h', i - 1) && HeadingOf(lines[h']).value.level == cutoff.value;
          assert h' == h by { LastIsUnique(lines, h, h', i - 1); }
          assert Ends(lines[i], cutoff.value);
        } else {
          assert !Blanked(lines, i - 1);
          assert !InSection(lines, h, i - 1);
        }
      }
    }
  }

  lemma LastIsUnique(lines: seq<string>, a: nat, b: nat, i: nat)
    requires i < |lines| && IsLast(lines, a, i) && IsLast(lines, b, i)
    ensures a == b
  {
    hide HeadingOf;
  }

  lemma CutoffStart(lines: seq<string>)
    requires lines != []
    ensures CutoffOK(lines, 0, NextCutoff(None, lines[0]))
  {
    hide HeadingOf;
    if IsHistorical(lines[0]) {
      assert IsLast(lines, 0, 0) && InSection(lines, 0, 0);
    }
  }

  lemma BlankedIffCutoff(lines: seq<string>, i: nat, cutoff: Option<nat>)
    requires i < |lines| && CutoffOK(lines, i, cutoff)
    ensures cutoff.Some? <==> Blanked(lines, i)
  {
    hide HeadingOf;
  }

  /** The one-pass masker: same number of lines, exactly the blanked ones emptied. */
  method MaskHistoricalSections(lines: seq<string>) returns (masked: seq<string>)
    ensures |masked| == |lines|
    ensures forall i :: 0 <= i < |lines| ==> masked[i] == if Blanked(lines, i) then "" else lines[i]
  {
    hide Blanked, CutoffOK, HeadingOf;
    masked := lines;
    var cutoff: Option<nat> := None;
    for i := 0 to |lines|
      invariant |masked| == |lines|
      invariant forall j :: 0 <= j < i ==> masked[j] == if Blanked(lines, j) then "" else lines[j]
      invariant forall j :: i <= j < |lines| ==> masked[j] == lines[j]
      invariant if i == 0 then cutoff.None? else CutoffOK(lines, i - 1, cutoff)
    {
      if i == 0 {
        CutoffStart(lines);
      } else {
        CutoffStep(lines, i, cutoff);
      }
      BlankedIffCutoff(lines, i, NextCutoff(cutoff, lines[i]));
      match HeadingOf(lines[i])
      case None =>
        if cutoff.Some? {
          masked := masked[i := ""];
        }
      case Some(heading) =>
        if cutoff.Some? && heading.level <= cutoff.value {
          cutoff := None;
        }
        if heading.historical {
          cutoff := Some(heading.level);
          masked := masked[i := ""];
        } else if cutoff.Some? {
          masked := masked[i := ""];
        }
    }
  }

  // ----- against lexical containment -----

  /** The line lies in the section of some historical heading. */
  ghost predicate Contained(lines: seq<string>, i: nat)
    requires i < |lines|
  {
    exists h: nat :: Governs(lines, h, i)
  }

  ghost predicate Governs(lines: seq<string>, h: nat, i: nat)
    requires i < |lines|
  {
    h <= i && IsHistorical(lines[h]) && InSection(lines, h, i)
  }

  /** A historical heading nested in the section of another, and a later heading that ends the
      inner section but not the outer one. */
  ghost predicate NestedExit(lines: seq<string>, outer: nat, inner: nat, exit': nat) {
    && outer < inner < exit' < |lines|
    && Governs(lines, outer, exit') && IsLast(lines, inner, exit') && Ends(lines[exit'], HeadingOf(lines[inner]).value.level)
  }

  lemma BlankedIsContained(lines: seq<string>, i: nat)
    requires i < |lines| && Blanked(lines, i)
    ensures Contained(lines, i)
  {
    hide HeadingOf;
    var h: nat :| IsLast(lines, h, i) && InSection(lines, h, i);
    assert Governs(lines, h, i);
  }

  /** The last historical heading at or before a line with one. */
  lemma {:induction false} LastExists(lines: seq<string>, h: nat, i: nat) returns (last: nat)
    requires h <= i < |lines| && IsHistorical(lines[h])
    ensures h <= last && IsLast(lines, last, i)
    decreases i - h
  {
    hide HeadingOf;
    if j: nat :| h < j <= i && IsHistorical(lines[j]) {
      last := LastExists(lines, j, i);
    } else {
      last := h;
    }
  }

  /** The first heading after `h` that ends its section. */
  lemma {:induction false} FirstEnd(lines: seq<string>, h: nat, i: nat) returns (exit': nat)
    requires h <= i < |lines| && HeadingOf(lines[h]).Some? && !InSection(lines, h, i)
    ensures h < exit' <= i && Ends(lines[exit'], HeadingOf(lines[h]).value.level)
  {
    hide HeadingOf;
    exit' :| h < exit' <= i && Ends(lines[exit'], HeadingOf(lines[h]).value.level);
  }

  /** A contained line that is left unblanked comes from a nested exit, and a nested exit leaves one. */
  lemma UnblankedMeansNestedExit(lines: seq<string>, i: nat)
    requires i < |lines| && Contained(lines, i) && !Blanked(lines, i)
    ensures exists outer, inner, exit' :: NestedExit(lines, outer, inner, exit')
  {
    hide HeadingOf;
    var outer: nat :| Governs(lines, outer, i);
    var inner := LastExists(lines, outer, i);
    assert inner != outer;
    var exit' := FirstEnd(lines, inner, i);
    assert IsLast(lines, inner, exit') && Governs(lines, outer, exit');
    assert NestedExit(lines, outer, inner, exit');
  }

  lemma NestedExitIsUnblanked(lines: seq<string>, outer: nat, inner: nat, exit': nat)
    requires NestedExit(lines, outer, inner, exit')
    ensures Contained(lines, exit') && !Blanked(lines, exit')
  {
    hide HeadingOf;
    forall h: nat | IsLast(lines, h, exit') ensures !InSection(lines, h, exit') {
      LastIsUnique(lines, h, inner, exit');
    }
  }

  /** Masking is lexical containment for every line exactly when no historical heading nested in
      a historical section is left again inside the outer one. */
  lemma MaskingIsContainmentIffNoNestedExit(lines: seq<string>)
    ensures (forall i: nat :: i < |lines| ==> (Blanked(lines, i) <==> Contained(lines, i))) <==>
            !exists outer, inner, exit' :: NestedExit(lines, outer, inner, exit')
  {
    hide HeadingOf;
    forall i: nat | i < |lines| && Blanked(lines, i) ensures Contained(lines, i) {
      BlankedIsContained(lines, i);
    }
    if i: nat :| i < |lines| && Contained(lines, i) && !Blanked(lines, i) {
      UnblankedMeansNestedExit(lines, i);
    }
    if outer: nat, inner: nat, exit': nat :| NestedExit(lines, outer, inner, exit') {
      NestedExitIsUnblanked(lines, outer, inner, exit');
    }
  }

  lemma {:induction false} HashesThen(n: nat, rest: string)
    requires rest == [] || rest[0] != '#'
    ensures Hashes(Hash(n) + rest) == n
  {
    if n == 0 {
      assert Hash(n) + rest == rest;
    } else {
      assert (Hash(n) + rest)[1..] == Hash(n - 1) + rest;
      HashesThen(n - 1, rest);
    }
  }

  function Hash(n: nat): (s: string)
    ensures |s| == n
  {
    if n == 0 then [] else ['#'] + Hash(n - 1)
  }

  lemma HeadingOfTitle(line: string, level: nat, title: string)
    requires 2 <= level <= 6 && |title| >= 2 && IsSpace(title[0]) && line == Hash(level) + title
    ensures HeadingOf(line) == Some(Heading(level, NamesHistory(line)))
  {
    hide NamesHistory, Hash, Hashes;
    assert title[0] != '#';
    HashesThen(level, title);
    assert line[level] == title[0];
  }

  lemma MarkersFound()
    ensures NamesHistory("## Changelog") && NamesHistory("### Historical")
  {
    assert MentionsAt("## Changelog", "changelog", 3);
    assert MentionsAt("### Historical", "historical", 4);
  }

  lemma NoMarkerFound()
    ensures !NamesHistory("### Other")
  {
    hide Mentions;
    OtherIsNoChangelog();
    LongerIsNotMentioned("### Other", "historical");
    LongerIsNotMentioned("### Other", "release history");
    LongerIsNotMentioned("### Other", "previous review");
  }

  lemma LongerIsNotMentioned(text: string, marker: string)
    requires |text| < |marker|
    ensures !Mentions(text, marker)
  {
  }

  lemma OtherIsNoChangelog()
    ensures !Mentions("### Other", "changelog")
  {
    assert Lower("### Other"[0 + 0]) != "changelog"[0];
  }

  lemma HeadingExamples()
    ensures HeadingOf("## Changelog") == Some(Heading(2, true))
    ensures HeadingOf("### Historical") == Some(Heading(3, true))
    ensures HeadingOf("### Other") == Some(Heading(3, false))
  {
    hide NamesHistory, HeadingOf;
    MarkersFound();
    NoMarkerFound();
    assert Hash(2) == "##" && Hash(3) == "###";
    HeadingOfTitle("## Changelog", 2, " Changelog");
    HeadingOfTitle("### Historical", 3, " Historical");
    HeadingOfTitle("### Other", 3, " Other");
  }

  /** A changelog with a historical subsection, followed by another subsection: the last heading is
      part of the changelog, yet it stays. */
  lemma NestedHistoryIsUncovered()
    ensures var lines := ["## Changelog", "### Historical", "### Other"];
            Contained(lines, 2) && !Blanked(lines, 2)
  {
    hide HeadingOf;
    var lines := ["## Changelog", "### Historical", "### Other"];
    HeadingExamples();
    assert NestedExit(lines, 0, 1, 2);
    NestedExitIsUnblanked(lines, 0, 1, 2);
  }
}
