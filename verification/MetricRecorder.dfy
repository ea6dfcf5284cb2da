/** The metric recorder: each scrape appends lines to the log, announcing new series names with
    their index before the first vector that uses them. Instants are in nanoseconds. */
module MetricRecorder {
  import opened Text

  datatype Value = Finite(number: real) | NonFinite

  datatype Scrape = Failed(at: int, err: string) | Scraped(at: int, values: map<string, Value>)

  datatype Line =
    | HeaderLine
    | SeriesLine(add: seq<(nat, string)>)
    | SampleLine(seqNo: nat, at: int, vector: seq<Option<real>>)
    | ErrorLine(seqNo: nat, at: int, err: string)
    | GapLine(since: int, until: int)
    | EndLine(reason: string)

  // ----- `sort.Strings` over the keys of a scrape -----

  predicate Before(a: string, b: string) {
    a == "" || (b != "" && (a[0] < b[0] || (a[0] == b[0] && Before(a[1..], b[1..]))))
  }

  lemma {:induction false} BeforeTotal(a: string, b: string)
    ensures Before(a, b) || Before(b, a)
    ensures Before(a, b) && Before(b, a) ==> a == b
  {
    if a != "" && b != "" && a[0] == b[0] {
      BeforeTotal(a[1..], b[1..]);
      assert a == [a[0]] + a[1..] && b == [b[0]] + b[1..];
    }
  }

  lemma {:induction false} BeforeTransitive(a: string, b: string, c: string)
    requires Before(a, b) && Before(b, c)
    ensures Before(a, c)
  {
    if a != "" && a[0] == b[0] == c[0] {
      BeforeTransitive(a[1..], b[1..], c[1..]);
    }
  }

  predicate IsLeast(key: string, keys: set<string>) {
    key in keys && forall other :: other in keys ==> Before(key, other)
  }

  lemma {:induction false} LeastExists(keys: set<string>) returns (least: string)
    requires keys != {}
    ensures IsLeast(least, keys)
    decreases |keys|
  {
    var key :| key in keys;
    var rest := keys - {key};
    assert forall x :: x in keys <==> x == key || x in rest;
    if rest == {} {
      BeforeTotal(key, key);
      least := key;
    } else {
      var other := LeastExists(rest);
      BeforeTotal(key, other);
      BeforeTotal(key, key);
      least := if Before(key, other) then key else other;
      forall x | x in keys ensures Before(least, x) {
        if x != key && least == key {
          BeforeTransitive(key, other, x);
        }
      }
    }
  }

  lemma LeastIsUnique(keys: set<string>)
    ensures forall a, b :: IsLeast(a, keys) && IsLeast(b, keys) ==> a == b
  {
    forall a, b | IsLeast(a, keys) && IsLeast(b, keys) ensures a == b {
      BeforeTotal(a, b);
    }
  }

  /** The keys in ascending order. */
  function SortedKeys(keys: set<string>): (sorted: seq<string>)
    ensures forall key :: key in sorted <==> key in keys
    ensures forall i, j :: 0 <= i < j < |sorted| ==> sorted[i] != sorted[j] && Before(sorted[i], sorted[j])
    decreases |keys|
  {
    if keys == {} then [] else
    assert exists key :: IsLeast(key, keys) by { var key := LeastExists(keys); }
    LeastIsUnique(keys);
    var key :| key in keys && IsLeast(key, keys);
    [key] + SortedKeys(keys - {key})
  }

  // ----- one scrape -----

  datatype Recorder = Recorder(names: seq<string>, log: seq<Line>, attempts: nat, successes: nat, errors: nat,
                               gaps: nat, gapTime: int, lastOK: Option<int>)

  const EMPTY := Recorder([], [HeaderLine], 0, 0, 0, 0, 0, None)

  /** The names after announcing those of `keys` that are new, in order. */
  function Announce(names: seq<string>, keys: seq<string>): (more: seq<string>)
    ensures names <= more
    decreases keys
  {
    if keys == [] then names
    else Announce(if keys[0] in names then names else names + [keys[0]], keys[1..])
  }

  /** The announcements `[index, name]` of the names from `start` on. */
  function Announcements(names: seq<string>, start: nat): seq<(nat, string)>
    requires start <= |names|
  {
    seq(|names| - start, i requires 0 <= i < |names| - start => (start + i, names[start + i]))
  }

  /** One entry per known name: its finite value, or null. */
  function Dense(values: map<string, Value>, names: seq<string>): seq<Option<real>> {
    seq(|names|, i requires 0 <= i < |names| =>
      if names[i] in values && values[names[i]].Finite? then Some(values[names[i]].number) else None)
  }

  predicate IsGap(lastOK: Option<int>, at: int, interval: int) {
    lastOK.Some? && at - lastOK.value > 2 * interval
  }

  function SeriesLines(names: seq<string>, start: nat): seq<Line>
    requires start <= |names|
  {
    if start < |names| then [SeriesLine(Announcements(names, start))] else []
  }

  /** The recorder after one scrape. */
  function Step(r: Recorder, interval: int, scrape: Scrape): Recorder {
    match scrape
    case Failed(at, err) =>
      r.(attempts := r.attempts + 1, errors := r.errors + 1, log := r.log + [ErrorLine(r.attempts + 1, at, err)])
    case Scraped(at, values) =>
      var gap := IsGap(r.lastOK, at, interval);
      var names := Announce(r.names, SortedKeys(values.Keys));
      Recorder(
        names,
        r.log + (if gap then [GapLine(r.lastOK.value, at)] else []) + SeriesLines(names, |r.names|)
          + [SampleLine(r.attempts + 1, at, Dense(values, names))],
        r.attempts + 1, r.successes + 1, r.errors,
        if gap then r.gaps + 1 else r.gaps,
        if gap then r.gapTime + (at - r.lastOK.value) else r.gapTime,
        Some(at))
  }

  function Record(interval: int, scrapes: seq<Scrape>): Recorder {
    if scrapes == [] then EMPTY
    else Step(Record(interval, scrapes[..|scrapes| - 1]), interval, scrapes[|scrapes| - 1])
  }

  // ----- the recorder as it runs -----

  /** The index dictionary and the name list describe each other. */
  ghost predicate Indexed(names: seq<string>, index: map<string, nat>) {
    && (forall i :: 0 <= i < |names| ==> names[i] in index && index[names[i]] == i)
    && (forall name :: name in index ==> index[name] < |names| && names[index[name]] == name)
  }

  lemma NoAnnouncements(names: seq<string>)
    ensures Announcements(names, |names|) == []
  {
  }

  lemma AnnouncementCount(names: seq<string>, start: nat)
    requires start <= |names|
    ensures |Announcements(names, start)| == |names| - start
  {
  }

  lemma AnnouncementsNext(names: seq<string>, start: nat, key: string)
    requires start <= |names|
    ensures Announcements(names + [key], start) == Announcements(names, start) + [(|names|, key)]
  {
  }

  lemma AnnounceNext(names: seq<string>, keys: seq<string>, k: nat)
    requires k < |keys|
    ensures Announce(names, keys[k..]) == Announce(if keys[k] in names then names else names + [keys[k]], keys[k + 1..])
  {
    assert keys[k..][1..] == keys[k + 1..];
  }

  lemma AnnounceNone(names: seq<string>, keys: seq<string>)
    ensures Announce(names, keys[|keys|..]) == names
  {
  }

  lemma Known(names: seq<string>, index: map<string, nat>, key: string)
    requires Indexed(names, index)
    ensures key in names <==> key in index
  {
  }

  lemma IndexNext(names: seq<string>, index: map<string, nat>, key: string)
    requires Indexed(names, index) && key !in index
    ensures Indexed(names + [key], index[key := |names|])
  {
  }

  class Collector {
    const interval: int
    var names: seq<string>
    var index: map<string, nat>
    var log: seq<Line>
    var attempts: nat
    var successes: nat
    var errors: nat
    var gaps: nat
    var gapTime: int
    var lastOK: Option<int>

    ghost predicate Valid()
      reads this
    {
      Indexed(names, index)
    }

    ghost function Model(): Recorder
      reads this
    {
      Recorder(names, log, attempts, successes, errors, gaps, gapTime, lastOK)
    }

    constructor (interval: int)
      ensures Valid() && Model() == EMPTY && this.interval == interval
    {
      this.interval := interval;
      names, index, log, lastOK := [], map[], [HeaderLine], None;
      attempts, successes, errors, gaps, gapTime := 0, 0, 0, 0, 0;
    }

    /** Announces the new names among `keys`, growing the dictionary in place. */
    method AddNames(keys: seq<string>)
      requires Valid()
      modifies this`names, this`index, this`log
      ensures Valid()
      ensures names == Announce(old(names), keys)
      ensures log == old(log) + SeriesLines(names, |old(names)|)
      ensures forall key :: key in keys ==> key in index
    {
      hide Announce, Announcements, Indexed;
      var added: seq<(nat, string)> := [];
      ghost var before := names;
      NoAnnouncements(names);
      assert keys[0..] == keys;
      for k := 0 to |keys|
        invariant Valid() && log == old(log)
        invariant |before| <= |names| && Announce(names, keys[k..]) == Announce(before, keys)
        invariant added == Announcements(names, |before|)
        invariant forall j :: 0 <= j < k ==> keys[j] in index
      {
        var key := keys[k];
        AnnounceNext(names, keys, k);
        Known(names, index, key);
        if key !in index {
          AnnouncementsNext(names, |before|, key);
          IndexNext(names, index, key);
          added := added + [(|names|, key)];
          index := index[key := |names|];
          names := names + [key];
        }
      }
      AnnounceNone(names, keys);
      if |added| > 0 {
        log := log + [SeriesLine(added)];
      }
      AnnouncementCount(names, |before|);
    }

    /** The vector, filled through the dictionary in whatever order the values come. */
    method Fill(values: map<string, Value>) returns (vector: seq<Option<real>>)
      requires Valid() && values.Keys <= index.Keys
      ensures vector == Dense(values, names)
    {
      vector := seq(|names|, _ => None);
      var left := values.Keys;
      while left != {}
        invariant left <= values.Keys && |vector| == |names|
        invariant forall i :: 0 <= i < |names| ==>
          vector[i] == if names[i] in values && names[i] !in left && values[names[i]].Finite?
                       then Some(values[names[i]].number) else None
        decreases left
      {
        var key :| key in left;
        left := left - {key};
        if values[key].Finite? {
          vector := vector[index[key] := Some(values[key].number)];
        }
      }
    }

    /** The `scrape` closure. */
    method Observe(scrape: Scrape)
      requires Valid()
      modifies this
      ensures Valid() && Model() == Step(old(Model()), interval, scrape)
    {
      hide SortedKeys, Announce, SeriesLines, Dense, Indexed;
      attempts := attempts + 1;
      match scrape
      case Failed(at, err) =>
        errors := errors + 1;
        log := log + [ErrorLine(attempts, at, err)];
      case Scraped(at, values) =>
        if lastOK.Some? {
          if at - lastOK.value > 2 * interval {
            gaps, gapTime := gaps + 1, gapTime + (at - lastOK.value);
            log := log + [GapLine(lastOK.value, at)];
          }
        }
        lastOK := Some(at);
        successes := successes + 1;
        AddNames(SortedKeys(values.Keys));
        var vector := Fill(values);
        log := log + [SampleLine(attempts, at, vector)];
    }
  }

  // ----- what every run of the recorder keeps -----

  ghost predicate Distinct(names: seq<string>) {
    forall i, j :: 0 <= i < j < |names| ==> names[i] != names[j]
  }

  lemma {:induction false} AnnounceKeeps(names: seq<string>, keys: seq<string>)
    requires Distinct(names)
    ensures Distinct(Announce(names, keys))
    ensures forall name :: name in Announce(names, keys) <==> name in names || name in keys
    decreases keys
  {
    if keys != [] {
      var more := if keys[0] in names then names else names + [keys[0]];
      assert Distinct(more);
      AnnounceKeeps(more, keys[1..]);
      assert forall name :: name in keys <==> name == keys[0] || name in keys[1..];
      assert forall name :: name in more <==> name in names || name == keys[0];
    }
  }

  /** Every name a successful scrape carried. */
  function Seen(scrapes: seq<Scrape>): set<string> {
    set i, name | 0 <= i < |scrapes| && scrapes[i].Scraped? && name in scrapes[i].values :: name
  }

  lemma SeenSnoc(scrapes: seq<Scrape>, scrape: Scrape)
    ensures Seen(scrapes + [scrape]) == Seen(scrapes) + if scrape.Scraped? then scrape.values.Keys else {}
  {
    var more := scrapes + [scrape];
    assert more[|scrapes|] == scrape;
    assert forall i :: 0 <= i < |scrapes| ==> more[i] == scrapes[i];
  }

  /** The index stays injective, only grows, and knows exactly the names seen. */
  lemma {:induction false} IndexGrowsInjectively(interval: int, scrapes: seq<Scrape>, earlier: nat)
    requires earlier <= |scrapes|
    ensures var names := Record(interval, scrapes).names;
            && Distinct(names)
            && Record(interval, scrapes[..earlier]).names <= names
            && forall name :: name in names <==> name in Seen(scrapes)
  {
    if scrapes == [] {
      assert scrapes[..earlier] == [];
    } else {
      var n := |scrapes| - 1;
      if earlier <= n {
        IndexGrowsInjectively(interval, scrapes[..n], earlier);
        assert scrapes[..n][..earlier] == scrapes[..earlier];
      } else {
        IndexGrowsInjectively(interval, scrapes[..n], 0);
        assert scrapes[..earlier] == scrapes;
      }
      assert scrapes == scrapes[..n] + [scrapes[n]];
      SeenSnoc(scrapes[..n], scrapes[n]);
      if scrapes[n].Scraped? {
        AnnounceKeeps(Record(interval, scrapes[..n]).names, SortedKeys(scrapes[n].values.Keys));
      }
    }
  }
}
