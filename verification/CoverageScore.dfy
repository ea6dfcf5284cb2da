/** The rest of `score`: merging the coverage profiles over blocks that touch an added line,
    the totals, and the gate on the percentage. Profile lines come parsed. */
module CoverageScore {
  import opened Text

  datatype Coords = Coords(lo: nat, loColumn: nat, hi: nat, hiColumn: nat)
  datatype Key = Key(path: string, coords: Coords, statements: nat)
  datatype Block = Block(key: Key, count: nat)

  type Added = map<string, set<nat>>

  predicate Spans(numbers: set<nat>, lo: nat, hi: nat) {
    exists n :: n in numbers && lo <= n <= hi
  }

  /** A block counts when its file was changed and one of its lines was added. */
  predicate Touches(added: Added, key: Key) {
    key.path in added && Spans(added[key.path], key.coords.lo, key.coords.hi)
  }

  /** How often a block ran over all profile lines. */
  function Executions(blocks: seq<Block>, key: Key): nat {
    if blocks == [] then 0 else
    Executions(blocks[..|blocks| - 1], key) +
    if blocks[|blocks| - 1].key == key then blocks[|blocks| - 1].count else 0
  }

  function KeysOf(blocks: seq<Block>): set<Key> {
    set block | block in blocks :: block.key
  }

  /** Every touching block once, with its executions summed over all profiles. */
  function Merged(added: Added, blocks: seq<Block>): map<Key, nat> {
    map key | key in KeysOf(blocks) && Touches(added, key) :: Executions(blocks, key)
  }

  function Flatten(profiles: seq<seq<Block>>): seq<Block> {
    if profiles == [] then [] else Flatten(profiles[..|profiles| - 1]) + profiles[|profiles| - 1]
  }

  lemma MergeOne(added: Added, blocks: seq<Block>, block: Block)
    ensures var merged, key := Merged(added, blocks), block.key;
            Merged(added, blocks + [block]) ==
            if Touches(added, key) then merged[key := (if key in merged then merged[key] else 0) + block.count] else merged
  {
    hide Touches;
    var more := blocks + [block];
    assert more[..|blocks|] == blocks;
    assert KeysOf(more) == KeysOf(blocks) + {block.key} by {
      assert forall b :: b in more <==> b in blocks || b == block;
    }
    forall key ensures Executions(more, key) == Executions(blocks, key) + if block.key == key then block.count else 0 {}
    if block.key !in KeysOf(blocks) {
      NeverExecuted(blocks, block.key);
    }
  }

  lemma {:induction false} NeverExecuted(blocks: seq<Block>, key: Key)
    requires key !in KeysOf(blocks)
    ensures Executions(blocks, key) == 0
  {
    if blocks != [] {
      var k := |blocks| - 1;
      assert blocks[k] in blocks;
      assert forall b :: b in blocks[..k] ==> b in blocks;
      NeverExecuted(blocks[..k], key);
    }
  }

  /** The inner loop over one profile's lines. */
  method MergeProfile(added: Added, before: map<Key, nat>, profile: seq<Block>, ghost seen: seq<Block>)
    returns (executions: map<Key, nat>)
    requires before == Merged(added, seen)
    ensures executions == Merged(added, seen + profile)
  {
    hide Merged;
    executions := before;
    assert seen + profile[..0] == seen;
    for j := 0 to |profile|
      invariant executions == Merged(added, seen + profile[..j])
    {
      MergeOne(added, seen + profile[..j], profile[j]);
      assert seen + profile[..j] + [profile[j]] == seen + profile[..j + 1];
      var key := profile[j].key;
      if Touches(added, key) {
        executions := executions[key := (if key in executions then executions[key] else 0) + profile[j].count];
      }
    }
    assert profile[..|profile|] == profile;
  }

  /** The profile loops, over every line of every profile. */
  method MergeProfiles(added: Added, profiles: seq<seq<Block>>) returns (executions: map<Key, nat>)
    ensures executions == Merged(added, Flatten(profiles))
  {
    executions := map[];
    for i := 0 to |profiles|
      invariant executions == Merged(added, Flatten(profiles[..i]))
    {
      assert profiles[..i + 1][..i] == profiles[..i];
      executions := MergeProfile(added, executions, profiles[i], Flatten(profiles[..i]));
    }
    assert profiles[..|profiles|] == profiles;
  }

  // ----- the order of profile lines does not matter -----

  lemma {:induction false} ExecutionsAppend(a: seq<Block>, b: seq<Block>, key: Key)
    ensures Executions(a + b, key) == Executions(a, key) + Executions(b, key)
  {
    if b == [] {
      assert a + b == a;
    } else {
      var k := |b| - 1;
      assert (a + b)[..|a| + k] == a + b[..k];
      ExecutionsAppend(a, b[..k], key);
    }
  }

  lemma WithoutOne(blocks: seq<Block>, i: nat)
    requires i < |blocks|
    ensures multiset(blocks[..i] + blocks[i + 1..]) == multiset(blocks) - multiset{blocks[i]}
  {
    assert blocks == blocks[..i] + [blocks[i]] + blocks[i + 1..];
  }

  lemma ExecutionsWithout(blocks: seq<Block>, i: nat, key: Key)
    requires i < |blocks|
    ensures Executions(blocks, key) == Executions(blocks[..i] + blocks[i + 1..], key) + Executions([blocks[i]], key)
  {
    assert blocks == blocks[..i] + [blocks[i]] + blocks[i + 1..];
    ExecutionsAppend(blocks[..i] + [blocks[i]], blocks[i + 1..], key);
    ExecutionsAppend(blocks[..i], [blocks[i]], key);
    ExecutionsAppend(blocks[..i], blocks[i + 1..], key);
  }

  lemma {:induction false} ExecutionsPermute(a: seq<Block>, b: seq<Block>, key: Key)
    requires multiset(a) == multiset(b)
    ensures Executions(a, key) == Executions(b, key)
  {
    if a == [] {
      assert |multiset(b)| == 0;
    } else {
      var k := |a| - 1;
      var last := a[k];
      assert a == a[..k] + [last];
      assert last in multiset(b);
      var j :| 0 <= j < |b| && b[j] == last;
      var rest := b[..j] + b[j + 1..];
      WithoutOne(a, k);
      WithoutOne(b, j);
      assert a[..k] + a[k + 1..] == a[..k];
      ExecutionsPermute(a[..k], rest, key);
      ExecutionsWithout(a, k, key);
      ExecutionsWithout(b, j, key);
    }
  }

  lemma KeysPermute(a: seq<Block>, b: seq<Block>)
    requires multiset(a) == multiset(b)
    ensures KeysOf(a) == KeysOf(b)
  {
    assert forall block :: block in a <==> block in multiset(a);
    assert forall block :: block in b <==> block in multiset(b);
  }

  /** Profiles may be given in any order and split in any way. */
  lemma MergeOrderDoesNotMatter(added: Added, a: seq<seq<Block>>, b: seq<seq<Block>>)
    requires multiset(Flatten(a)) == multiset(Flatten(b))
    ensures Merged(added, Flatten(a)) == Merged(added, Flatten(b))
  {
    KeysPermute(Flatten(a), Flatten(b));
    forall key ensures Executions(Flatten(a), key) == Executions(Flatten(b), key) {
      ExecutionsPermute(Flatten(a), Flatten(b), key);
    }
  }

  // ----- totals -----

  /** `sum(key[2] for key in keys)`. */
  ghost function StatementSum(keys: set<Key>): nat {
    if keys == {} then 0 else
    var key :| key in keys;
    key.statements + StatementSum(keys - {key})
  }

  lemma {:induction false} StatementSumRemove(keys: set<Key>, key: Key)
    requires key in keys
    ensures StatementSum(keys) == key.statements + StatementSum(keys - {key})
    decreases |keys|
  {
    var first :| first in keys && StatementSum(keys) == first.statements + StatementSum(keys - {first});
    if first != key {
      StatementSumRemove(keys - {first}, key);
      StatementSumRemove(keys - {key}, first);
      assert keys - {first} - {key} == keys - {key} - {first};
    }
  }

  lemma {:induction false} StatementSumMonotone(small: set<Key>, large: set<Key>)
    requires small <= large
    ensures StatementSum(small) <= StatementSum(large)
    decreases |small|
  {
    if small != {} {
      var key :| key in small;
      StatementSumRemove(small, key);
      StatementSumRemove(large, key);
      StatementSumMonotone(small - {key}, large - {key});
    }
  }

  ghost function CoveredKeys(executions: map<Key, nat>): set<Key> {
    set key | key in executions && executions[key] > 0
  }

  method SumStatements(keys: set<Key>) returns (total: nat)
    ensures total == StatementSum(keys)
  {
    total := 0;
    var left := keys;
    while left != {}
      invariant left <= keys && total + StatementSum(left) == StatementSum(keys)
      decreases left
    {
      var key :| key in left;
      StatementSumRemove(left, key);
      total, left := total + key.statements, left - {key};
    }
  }

  ghost function UncoveredKeys(executions: map<Key, nat>): set<Key> {
    set key | key in executions && executions[key] == 0
  }

  lemma {:induction false} StatementSumUnion(a: set<Key>, b: set<Key>)
    requires a !! b
    ensures StatementSum(a + b) == StatementSum(a) + StatementSum(b)
    decreases |a|
  {
    if a == {} {
      assert a + b == b;
    } else {
      var key :| key in a;
      StatementSumRemove(a, key);
      StatementSumRemove(a + b, key);
      assert a + b - {key} == (a - {key}) + b;
      StatementSumUnion(a - {key}, b);
    }
  }

  /** Covered and listed as uncovered together are all the statements counted. */
  lemma CoveredAndUncoveredAddUp(executions: map<Key, nat>)
    ensures StatementSum(CoveredKeys(executions)) + StatementSum(UncoveredKeys(executions)) == StatementSum(executions.Keys)
  {
    StatementSumUnion(CoveredKeys(executions), UncoveredKeys(executions));
    assert CoveredKeys(executions) + UncoveredKeys(executions) == executions.Keys;
  }

  /** A changed file: its lines, and the statement spans the instrumenter lists for it. */
  datatype Source = Source(lines: seq<string>, spans: seq<(nat, nat)>)

  predicate HasStatements(numbers: set<nat>, spans: seq<(nat, nat)>) {
    exists i :: 0 <= i < |spans| && Spans(numbers, spans[i].0, spans[i].1)
  }

  /** Indexing by `n - 1` reaches the file: from its last line, for 0, to its end. */
  predicate InFile(lines: seq<string>, n: nat) {
    n <= |lines| && lines != []
  }

  function LineAt(lines: seq<string>, n: nat): string
    requires InFile(lines, n)
  {
    if n == 0 then lines[|lines| - 1] else lines[n - 1]
  }

  /** Neither blank nor a comment by its first characters. */
  predicate IsCode(line: string) {
    var text := StripLeft(line);
    Strip(line) != "" && !StartsWith(text, "//") && !StartsWith(text, "/*") && !StartsWith(text, "*")
  }

  predicate CodeAt(lines: seq<string>, n: nat) {
    InFile(lines, n) && IsCode(LineAt(lines, n))
  }

  /** `any` over the added numbers, in whatever order the set yields them: it stops at the first
      line of code, and none where it first meets a number past the end. */
  method FindCode(lines: seq<string>, numbers: set<nat>) returns (found: Option<bool>)
    ensures found == Some(true) ==> exists n :: n in numbers && CodeAt(lines, n)
    ensures found == Some(false) ==> forall n :: n in numbers ==> InFile(lines, n) && !CodeAt(lines, n)
    ensures found.None? ==> exists n :: n in numbers && !InFile(lines, n)
  {
    hide IsCode;
    var left := numbers;
    while left != {}
      invariant left <= numbers
      invariant forall n :: n in numbers - left ==> InFile(lines, n) && !CodeAt(lines, n)
      decreases left
    {
      var n :| n in left;
      if !InFile(lines, n) {
        return None;
      }
      if IsCode(LineAt(lines, n)) {
        assert CodeAt(lines, n);
        return Some(true);
      }
      left := left - {n};
    }
    return Some(false);
  }

  /** Changed code with statements that no profile measured. */
  ghost predicate Unmeasured(numbers: set<nat>, source: Source) {
    (exists n :: n in numbers && CodeAt(source.lines, n)) && HasStatements(numbers, source.spans)
  }

  /** The file can be read and has every line it is asked for. */
  ghost predicate Readable(path: string, numbers: set<nat>, sources: map<string, Source>) {
    path in sources && forall n :: n in numbers ==> InFile(sources[path].lines, n)
  }

  ghost predicate MustReject(added: Added, measured: set<string>, sources: map<string, Source>, path: string) {
    path in added && path in sources && path !in measured && Unmeasured(added[path], sources[path])
  }

  /** A score, a changed file without measured statements, or a file that cannot be read. */
  datatype Score = Rejected | Unreadable | Score(covered: nat, total: nat, measured: set<string>, uncovered: set<Key>)

  datatype Finding = Fine | Unfit | Missing

  /** One changed file: unreadable, rejected or fine. */
  method CheckFile(path: string, numbers: set<nat>, measured: bool, sources: map<string, Source>) returns (finding: Finding)
    ensures finding.Missing? ==> !Readable(path, numbers, sources)
    ensures finding.Unfit? ==> path in sources && !measured && Unmeasured(numbers, sources[path])
    ensures finding.Fine? ==> path in sources && (measured || !Unmeasured(numbers, sources[path]))
  {
    hide CodeAt, InFile;
    if path !in sources {
      return Missing;
    }
    var code := FindCode(sources[path].lines, numbers);
    match code
    case None => return Missing;
    case Some(found) =>
      finding := if found && !measured && HasStatements(numbers, sources[path].spans) then Unfit else Fine;
  }

  /** All of `score` behind the reading of the diff. A score is exact and means that every changed
      file exists and none lacks measurement; with every changed line in its file, the outcome is
      a rejection exactly when some file lacks it. */
  method ScoreProfiles(added: Added, profiles: seq<seq<Block>>, sources: map<string, Source>) returns (score: Score)
    ensures var executions := Merged(added, Flatten(profiles));
            var measured := set key | key in executions :: key.path;
            && (score.Score? ==>
                  && score == Score(StatementSum(CoveredKeys(executions)), StatementSum(executions.Keys), measured,
                                    UncoveredKeys(executions))
                  && added.Keys <= sources.Keys && forall path :: !MustReject(added, measured, sources, path))
            && (score.Rejected? ==> exists path :: MustReject(added, measured, sources, path))
            && (score.Unreadable? ==> exists path :: path in added && !Readable(path, added[path], sources))
  {
    hide Unmeasured, Readable, Merged;
    var executions := MergeProfiles(added, profiles);
    var measured := set key | key in executions :: key.path;
    var left := added.Keys;
    while left != {}
      invariant left <= added.Keys
      invariant forall path :: path in added && path !in left ==> path in sources && !MustReject(added, measured, sources, path)
      decreases left
    {
      var path :| path in left;
      var finding := CheckFile(path, added[path], path in measured, sources);
      if finding.Missing? {
        return Unreadable;
      } else if finding.Unfit? {
        assert MustReject(added, measured, sources, path);
        return Rejected;
      }
      left := left - {path};
    }
    var total := SumStatements(executions.Keys);
    var covered := SumStatements(set key | key in executions && executions[key] > 0);
    return Score(covered, total, measured, set key | key in executions && executions[key] == 0);
  }

  /** `percent`: none without statements. */
  function Percent(score: Score): Option<real>
    requires score.Score?
  {
    if score.total == 0 then None else Some((score.covered * 100) as real / score.total as real)
  }

  /** The gate's exit code: fails exactly when the covered share is under the floor. */
  lemma GateFailsUnderTheFloor(score: Score, floor: real)
    requires score.Score?
    ensures (Percent(score).Some? && Percent(score).value < floor) <==>
            score.total > 0 && (score.covered * 100) as real < floor * score.total as real
  {
    if score.total > 0 {
      var total := score.total as real;
      var percent := Percent(score).value;
      assert percent * total == (score.covered * 100) as real;
      if percent < floor {
        assert (floor - percent) * total > 0.0;
      } else {
        assert (percent - floor) * total >= 0.0;
      }
    }
  }

  /** More profiles never lower what is covered, measured or counted, and never more is covered than counted. */
  lemma MoreProfilesCoverMore(added: Added, a: seq<Block>, b: seq<Block>)
    ensures var few, many := Merged(added, a), Merged(added, a + b);
            && few.Keys <= many.Keys
            && StatementSum(few.Keys) <= StatementSum(many.Keys)
            && StatementSum(CoveredKeys(few)) <= StatementSum(CoveredKeys(many))
            && StatementSum(CoveredKeys(many)) <= StatementSum(many.Keys)
  {
    hide Touches, StatementSum;
    var few, many := Merged(added, a), Merged(added, a + b);
    assert forall block :: block in a ==> block in a + b;
    forall key ensures Executions(a, key) <= Executions(a + b, key) {
      ExecutionsAppend(a, b, key);
    }
    assert CoveredKeys(few) <= CoveredKeys(many);
    StatementSumMonotone(few.Keys, many.Keys);
    StatementSumMonotone(CoveredKeys(few), CoveredKeys(many));
    StatementSumMonotone(CoveredKeys(many), many.Keys);
  }
}
