/** The lab topology's life on a host: setup creates host resources one privileged command at a
    time and records each right after it exists; teardown removes what was recorded, keeps what
    it failed to remove, and reports whether the host is clean. Each privileged command takes
    effect or fails without one. */
module LabTopology {

  /** Host resources. What lives inside another resource goes away with it. */
  datatype Resource =
    | Bridge(name: string)
    | Namespace(name: string)
    | Link(name: string)
    | Chain(name: string)
    | Jump(name: string)
    | User(name: string)
    | Path(name: string)
    | Running(name: string)
    | Within(owner: Resource, detail: string)

  function Root(r: Resource): Resource {
    match r case Within(owner, _) => Root(owner) case _ => r
  }

  const UNIT_NAMES := ["jul.service", "jul-readonly.service", "jul-f1-dashboard.service"]
  const DASHBOARD := "jul-f1-dashboard.service"
  const BINARY := "/usr/local/bin/jul"
  const DIRECTORIES := ["/etc/jul", "/var/lib/jul", "/var/cache/jul", "/var/log/jul"]
  const UNIT_DIRS := ["/etc/systemd/system/", "/run/systemd/system/", "/lib/systemd/system/", "/usr/lib/systemd/system/"]
  const JUL := "jul"

  function UnitPath(unit: string): Resource {
    Path("/etc/systemd/system/" + unit)
  }

  /** What a host can look like: contents have their container, a rule has its chain. */
  ghost predicate Closed(host: set<Resource>) {
    && (forall r :: r in host ==> Root(r) in host)
    && (forall r :: r in host && r.Jump? ==> Chain(r.name) in host)
  }

  // ----- names in command output are looked for as substrings -----

  predicate Occurs(needle: string, text: string) {
    exists i :: 0 <= i <= |text| && needle <= text[i..]
  }

  predicate NamespaceListed(host: set<Resource>, name: string) {
    exists r :: r in host && r.Namespace? && Occurs(name, r.name)
  }

  predicate LinkListed(host: set<Resource>, name: string) {
    exists r :: r in host && (r.Link? || r.Bridge?) && Occurs(name, r.name)
  }

  predicate RuleListed(host: set<Resource>, name: string) {
    exists r :: r in host && (r.Chain? || r.Jump?) && Occurs(name, r.name)
  }

  // ----- teardown commands and their outcomes -----

  datatype Command =
    | StopUnit(unit: string) | RemoveUnit(unit: string) | Reload
    | DeleteJump | FlushChain | DeleteChain
    | DeleteLink(link: string) | DeleteNamespace(ns: string) | DeleteBridge
    | RemovePath(path: string) | DeleteUser
    | ListNamespaces | ListLinks | ListRules

  /** Any pattern of failures: the commands that succeed. Teardown issues each command once. */
  type Outcome = Command -> bool

  predicate UnitGone(ok: Outcome, unit: string) {
    ok(StopUnit(unit)) && ok(RemoveUnit(unit))
  }

  predicate ChainGone(ok: Outcome) {
    ok(FlushChain) && ok(DeleteChain)
  }

  datatype Report = Report(
    clean: bool, leftoverNamespaces: seq<string>, leftoverLinks: seq<string>, leftoverFirewall: bool,
    leftoverPaths: seq<string>, userRemaining: bool, cleanupErrors: seq<Command>, verificationErrors: seq<Command>)

  function Without(host: set<Resource>, root: Resource): set<Resource> {
    set r | r in host && Root(r) != root
  }

  class Host {
    var resources: set<Resource>

    constructor (resources: set<Resource>)
      ensures this.resources == resources
    {
      this.resources := resources;
    }
  }

  /** The recorded resources, as the lab's fields hold them. */
  datatype Record = Record(
    user: bool, paths: set<string>, units: set<string>, bridge: bool, namespaces: set<string>, links: set<string>,
    chain: bool, jump: bool)

  function Recorded(bridge: string, chain: string, rec: Record): set<Resource> {
    (if rec.user then {User(JUL)} else {}) + (set p | p in rec.paths :: Path(p)) + (set u | u in rec.units :: UnitPath(u)) +
    (if rec.bridge then {Bridge(bridge)} else {}) + (set n | n in rec.namespaces :: Namespace(n)) +
    (set l | l in rec.links :: Link(l)) + (if rec.chain then {Chain(chain)} else {}) + (if rec.jump then {Jump(chain)} else {})
  }

  /** Resources this run is responsible for: a recorded one, something inside it, or a recorded
      unit's running service. */
  predicate Owned(bridge: string, chain: string, rec: Record, r: Resource) {
    Root(r) in Recorded(bridge, chain, rec) || (r.Running? && r.name in rec.units)
  }

  /** Everything beyond the original host is owned, and nothing of the original host is. */
  ghost predicate Separate(bridge: string, chain: string, rec: Record, before: set<Resource>, host: set<Resource>) {
    && before <= host
    && (forall r :: r in host && r !in before ==> Owned(bridge, chain, rec, r))
    && (forall r :: r in before ==> !Owned(bridge, chain, rec, r))
  }

  /** The paths and users the collision check vouches for. */
  ghost predicate NoCollisions(host: set<Resource>) {
    && Path(BINARY) !in host
    && (forall i :: 0 <= i < |DIRECTORIES| ==> Path(DIRECTORIES[i]) !in host)
    && (forall i :: 0 <= i < |UNIT_NAMES| ==> UnitPath(UNIT_NAMES[i]) !in host && Running(UNIT_NAMES[i]) !in host)
    && User(JUL) !in host
  }

  function Joined(dirs: seq<string>, names: seq<string>): seq<string> {
    if dirs == [] then [] else seq(|names|, i requires 0 <= i < |names| => dirs[0] + names[i]) + Joined(dirs[1..], names)
  }

  lemma {:induction false} InJoined(dirs: seq<string>, names: seq<string>, p: string)
    ensures p in Joined(dirs, names) <==> exists d, n :: 0 <= d < |dirs| && 0 <= n < |names| && p == dirs[d] + names[n]
  {
    if dirs != [] {
      var first := seq(|names|, i requires 0 <= i < |names| => dirs[0] + names[i]);
      InJoined(dirs[1..], names, p);
      if p in first {
        var n :| 0 <= n < |names| && p == first[n];
        assert p == dirs[0] + names[n];
      }
      if p in Joined(dirs[1..], names) {
        var d, n :| 0 <= d < |dirs[1..]| && 0 <= n < |names| && p == dirs[1..][d] + names[n];
        assert p == dirs[d + 1] + names[n];
      }
      if d, n :| 0 <= d < |dirs| && 0 <= n < |names| && p == dirs[d] + names[n] {
        if d == 0 {
          assert first[n] == p;
        } else {
          assert dirs[1..][d - 1] == dirs[d];
        }
      }
    }
  }

  const LISTENERS := [3000, 9443, 443]

  /** Why setup is refused, or that it is not. */
  datatype Check =
    | Passed | PathsExist(paths: seq<string>) | UnitActive(unit: string) | UserExists
    | ListenerActive(port: int) | NamespacesExist(names: seq<string>)

  /** A path the lab would install, or a unit file systemd would prefer or find. */
  ghost predicate Protected(p: string) {
    p == BINARY || p in DIRECTORIES || exists d, n :: 0 <= d < |UNIT_DIRS| && 0 <= n < |UNIT_NAMES| && p == UNIT_DIRS[d] + UNIT_NAMES[n]
  }

  /** Nothing of what the lab would claim exists yet; an unreadable namespace list is passed over. */
  ghost predicate Vacant(host: set<Resource>, namespaces: seq<string>, listening: set<int>, listOk: bool) {
    && (forall p :: Protected(p) ==> Path(p) !in host)
    && (forall u :: u in UNIT_NAMES ==> Running(u) !in host)
    && User(JUL) !in host
    && (forall port :: port in LISTENERS ==> port !in listening)
    && (listOk ==> forall n :: n in namespaces ==> !NamespaceListed(host, n))
  }

  /** What a refusal names is there. */
  ghost predicate Justified(check: Check, host: set<Resource>, namespaces: seq<string>, listening: set<int>) {
    match check
    case Passed => true
    case PathsExist(paths) => paths != [] && forall p :: p in paths <==> Protected(p) && Path(p) in host
    case UnitActive(unit) => unit in UNIT_NAMES && Running(unit) in host
    case UserExists => User(JUL) in host
    case ListenerActive(port) => port in LISTENERS && port in listening
    case NamespacesExist(names) => names != [] && forall n :: n in names <==> n in namespaces && NamespaceListed(host, n)
  }

  /** The protected paths that exist, collected in a loop. */
  method CollectExisting(host: set<Resource>, paths: seq<string>) returns (existing: seq<string>)
    ensures forall p :: p in existing <==> p in paths && Path(p) in host
  {
    existing := [];
    for i := 0 to |paths|
      invariant forall p :: p in existing <==> p in paths[..i] && Path(p) in host
    {
      assert paths[..i + 1] == paths[..i] + [paths[i]];
      if Path(paths[i]) in host {
        existing := existing + [paths[i]];
      }
    }
    assert paths[..|paths|] == paths;
  }

  method CollectListed(host: set<Resource>, names: seq<string>) returns (listed: seq<string>)
    ensures forall n :: n in listed <==> n in names && NamespaceListed(host, n)
  {
    hide NamespaceListed;
    listed := [];
    for i := 0 to |names|
      invariant forall n :: n in listed <==> n in names[..i] && NamespaceListed(host, n)
    {
      assert names[..i + 1] == names[..i] + [names[i]];
      if NamespaceListed(host, names[i]) {
        listed := listed + [names[i]];
      }
    }
    assert names[..|names|] == names;
  }

  lemma ProtectedPaths(p: string)
    ensures p in [BINARY] + DIRECTORIES + Joined(UNIT_DIRS, UNIT_NAMES) <==> Protected(p)
  {
    hide Joined;
    InJoined(UNIT_DIRS, UNIT_NAMES, p);
  }

  /** The collision check, refusing at the first kind of collision: it passes exactly when nothing
      the lab would claim exists, and a refusal names what does. */
  method VerifyNoCollisions(host: Host, namespaces: seq<string>, listening: set<int>, listOk: bool) returns (check: Check)
    ensures check.Passed? <==> Vacant(host.resources, namespaces, listening, listOk)
    ensures Justified(check, host.resources, namespaces, listening)
  {
    hide Joined, NamespaceListed, Protected;
    var protected := [BINARY] + DIRECTORIES + Joined(UNIT_DIRS, UNIT_NAMES);
    forall p ensures p in protected <==> Protected(p) {
      ProtectedPaths(p);
    }
    var existing := CollectExisting(host.resources, protected);
    if existing != [] {
      assert Protected(existing[0]);
      return PathsExist(existing);
    }
    for i := 0 to |UNIT_NAMES|
      invariant forall k :: 0 <= k < i ==> Running(UNIT_NAMES[k]) !in host.resources
    {
      if Running(UNIT_NAMES[i]) in host.resources {
        return UnitActive(UNIT_NAMES[i]);
      }
    }
    if User(JUL) in host.resources {
      return UserExists;
    }
    for i := 0 to |LISTENERS|
      invariant forall k :: 0 <= k < i ==> LISTENERS[k] !in listening
    {
      if LISTENERS[i] in listening {
        return ListenerActive(LISTENERS[i]);
      }
    }
    if listOk {
      var active := CollectListed(host.resources, namespaces);
      if active != [] {
        assert active[0] in namespaces;
        return NamespacesExist(active);
      }
    }
    return Passed;
  }

  /** What setup relies on. */
  lemma VacantMeansNoCollisions(host: set<Resource>, namespaces: seq<string>, listening: set<int>, listOk: bool)
    requires Vacant(host, namespaces, listening, listOk)
    ensures NoCollisions(host)
  {
    assert Protected(BINARY);
    forall i | 0 <= i < |DIRECTORIES| ensures Path(DIRECTORIES[i]) !in host {
      assert Protected(DIRECTORIES[i]);
    }
    forall i | 0 <= i < |UNIT_NAMES| ensures UnitPath(UNIT_NAMES[i]) !in host && Running(UNIT_NAMES[i]) !in host {
      assert UnitPath(UNIT_NAMES[i]) == Path(UNIT_DIRS[0] + UNIT_NAMES[i]);
      assert Protected(UNIT_DIRS[0] + UNIT_NAMES[i]);
    }
  }

  // ----- what the record promises, as values -----

  lemma RecordedMember(bridge: string, chain: string, rec: Record, r: Resource)
    ensures r in Recorded(bridge, chain, rec) <==>
            match r
            case User(n) => rec.user && n == JUL
            case Bridge(n) => rec.bridge && n == bridge
            case Chain(n) => rec.chain && n == chain
            case Jump(n) => rec.jump && n == chain
            case Namespace(n) => n in rec.namespaces
            case Link(n) => n in rec.links
            case Path(n) => n in rec.paths || exists u :: u in rec.units && UnitPath(u) == r
            case _ => false
  {
  }

  lemma RootIsARoot(r: Resource)
    ensures Root(Root(r)) == Root(r) && !Root(r).Within?
  {
  }

  /** Recording one more resource that the original host did not have. */
  lemma CreatedStaysSeparate(bridge: string, chain: string, rec: Record, rec': Record, before: set<Resource>,
                             host: set<Resource>, r: Resource)
    requires Separate(bridge, chain, rec, before, host) && Closed(before)
    requires Root(r) == r && r !in before
    requires Recorded(bridge, chain, rec') == Recorded(bridge, chain, rec) + {r} && rec.units <= rec'.units
    requires forall u :: u in rec'.units && u !in rec.units ==> Running(u) !in before
    ensures Separate(bridge, chain, rec', before, host + {r})
  {
    hide Recorded, Root;
    forall x | x in before ensures !Owned(bridge, chain, rec', x) {
      assert Root(x) in before;
      assert !Owned(bridge, chain, rec, x);
    }
    forall x | x in host + {r} && x !in before ensures Owned(bridge, chain, rec', x) {
      assert x == r || Owned(bridge, chain, rec, x);
    }
  }

  /** Adding something inside an owned resource. */
  lemma ConfiguredStaysSeparate(bridge: string, chain: string, rec: Record, before: set<Resource>, host: set<Resource>, r: Resource)
    requires Separate(bridge, chain, rec, before, host) && Owned(bridge, chain, rec, r)
    ensures Separate(bridge, chain, rec, before, host + {r})
  {
    hide Owned;
  }

  /** What a teardown with these outcomes removes. */
  predicate Removed(bridge: string, chain: string, rec: Record, ok: Outcome, r: Resource) {
    match Root(r)
    case Running(u) => r == Running(u) && u in rec.units && ok(StopUnit(u))
    case Jump(n) => rec.jump && n == chain && ok(DeleteJump)
    case Chain(n) => rec.chain && n == chain && (ok(DeleteChain) || (ok(FlushChain) && r.Within?))
    case Link(l) => l in rec.links && ok(DeleteLink(l))
    case Namespace(n) => n in rec.namespaces && ok(DeleteNamespace(n))
    case Bridge(n) => rec.bridge && n == bridge && ok(DeleteBridge)
    case Path(p) =>
      || (p in rec.paths && ok(RemovePath(p)))
      || exists u :: u in rec.units && UnitPath(u) == Path(p) && ok(RemoveUnit(u))
    case User(n) => rec.user && n == JUL && ok(DeleteUser)
    case Within(_, _) => false
  }

  /** What it still records. */
  function StillRecorded(rec: Record, ok: Outcome): Record {
    Record(rec.user && !ok(DeleteUser), (set p | p in rec.paths && !ok(RemovePath(p))), (set u | u in rec.units && !UnitGone(ok, u)),
           rec.bridge && !ok(DeleteBridge), (set n | n in rec.namespaces && !ok(DeleteNamespace(n))),
           (set l | l in rec.links && !ok(DeleteLink(l))), rec.chain && !ChainGone(ok), rec.jump && !ok(DeleteJump))
  }

  function Torn(bridge: string, chain: string, rec: Record, ok: Outcome, host: set<Resource>): set<Resource> {
    set r | r in host && !Removed(bridge, chain, rec, ok, r)
  }

  lemma OnlyOwnedIsRemoved(bridge: string, chain: string, rec: Record, ok: Outcome, r: Resource)
    requires Removed(bridge, chain, rec, ok, r)
    ensures Owned(bridge, chain, rec, r)
  {
    RecordedMember(bridge, chain, rec, Root(r));
  }

  /** An owned resource that survives is still recorded. */
  lemma SurvivorsStayOwned(bridge: string, chain: string, rec: Record, ok: Outcome, r: Resource)
    requires Owned(bridge, chain, rec, r) && !Removed(bridge, chain, rec, ok, r)
    ensures Owned(bridge, chain, StillRecorded(rec, ok), r)
  {
    hide Recorded;
    RootIsARoot(r);
    RecordedMember(bridge, chain, rec, Root(r));
    RecordedMember(bridge, chain, StillRecorded(rec, ok), Root(r));
    if Root(r).Path? && Root(r).name !in rec.paths && Root(r) in Recorded(bridge, chain, rec) {
      var u :| u in rec.units && UnitPath(u) == Root(r);
      assert u in StillRecorded(rec, ok).units;
    }
  }

  lemma StillRecordedIsOwned(bridge: string, chain: string, rec: Record, ok: Outcome, r: Resource)
    requires Owned(bridge, chain, StillRecorded(rec, ok), r)
    ensures Owned(bridge, chain, rec, r)
  {
    hide Recorded;
    RootIsARoot(r);
    RecordedMember(bridge, chain, rec, Root(r));
    RecordedMember(bridge, chain, StillRecorded(rec, ok), Root(r));
  }

  /** Whatever fails, teardown removes only what this run created, and keeps recording the rest. */
  lemma TeardownStaysSeparate(bridge: string, chain: string, rec: Record, ok: Outcome, before: set<Resource>, host: set<Resource>)
    requires Separate(bridge, chain, rec, before, host)
    ensures Separate(bridge, chain, StillRecorded(rec, ok), before, Torn(bridge, chain, rec, ok, host))
  {
    hide Owned, Removed, StillRecorded;
    forall r | r in before ensures r in Torn(bridge, chain, rec, ok, host) && !Owned(bridge, chain, StillRecorded(rec, ok), r) {
      if Removed(bridge, chain, rec, ok, r) {
        OnlyOwnedIsRemoved(bridge, chain, rec, ok, r);
      }
      if Owned(bridge, chain, StillRecorded(rec, ok), r) {
        StillRecordedIsOwned(bridge, chain, rec, ok, r);
      }
    }
    forall r | r in Torn(bridge, chain, rec, ok, host) && r !in before ensures Owned(bridge, chain, StillRecorded(rec, ok), r) {
      SurvivorsStayOwned(bridge, chain, rec, ok, r);
    }
  }

  lemma RecordedIsARoot(bridge: string, chain: string, rec: Record, owner: Resource, detail: string)
    requires owner in Recorded(bridge, chain, rec)
    ensures Owned(bridge, chain, rec, Within(owner, detail))
  {
    RecordedMember(bridge, chain, rec, owner);
  }

  /** The resources a lab with these names can record one by one; units are recorded by name. */
  predicate Recordable(bridge: string, chain: string, r: Resource) {
    match r
    case Bridge(n) => n == bridge
    case Chain(n) => n == chain
    case Jump(n) => n == chain
    case User(n) => n == JUL
    case Running(_) => false
    case Within(_, _) => false
    case _ => true
  }

  function With(rec: Record, r: Resource): Record {
    match r
    case Bridge(_) => rec.(bridge := true)
    case Chain(_) => rec.(chain := true)
    case Jump(_) => rec.(jump := true)
    case User(_) => rec.(user := true)
    case Namespace(n) => rec.(namespaces := rec.namespaces + {n})
    case Link(n) => rec.(links := rec.links + {n})
    case Path(n) => rec.(paths := rec.paths + {n})
    case _ => rec
  }

  lemma RecordedWithMember(bridge: string, chain: string, rec: Record, r: Resource, x: Resource)
    requires Recordable(bridge, chain, r)
    ensures x in Recorded(bridge, chain, With(rec, r)) <==> x in Recorded(bridge, chain, rec) || x == r
  {
    hide Recorded, UnitPath;
    RecordedMember(bridge, chain, rec, x);
    RecordedMember(bridge, chain, With(rec, r), x);
  }

  lemma RecordedWith(bridge: string, chain: string, rec: Record, r: Resource)
    requires Recordable(bridge, chain, r)
    ensures Recorded(bridge, chain, With(rec, r)) == Recorded(bridge, chain, rec) + {r}
  {
    hide Recorded, With, Recordable;
    forall x ensures x in Recorded(bridge, chain, With(rec, r)) <==> x in Recorded(bridge, chain, rec) || x == r {
      RecordedWithMember(bridge, chain, rec, r, x);
    }
  }

  lemma RecordedWithUnit(bridge: string, chain: string, rec: Record, unit: string)
    ensures Recorded(bridge, chain, rec.(units := rec.units + {unit})) == Recorded(bridge, chain, rec) + {UnitPath(unit)}
  {
    hide Recorded, UnitPath;
    var rec' := rec.(units := rec.units + {unit});
    forall x ensures x in Recorded(bridge, chain, rec') <==> x in Recorded(bridge, chain, rec) || x == UnitPath(unit) {
      RecordedMember(bridge, chain, rec, x);
      RecordedMember(bridge, chain, rec', x);
      UnitPathIsAPath(unit);
    }
  }

  lemma UnitPathIsAPath(unit: string)
    ensures UnitPath(unit).Path? && Root(UnitPath(unit)) == UnitPath(unit)
  {
  }

  /** A chain the run created was not there before, so no rule could jump to it. */
  lemma JumpIsNew(bridge: string, chain: string, rec: Record, before: set<Resource>, host: set<Resource>)
    requires Separate(bridge, chain, rec, before, host) && Closed(before) && rec.chain
    ensures Jump(chain) !in before
  {
    RecordedMember(bridge, chain, rec, Chain(chain));
    assert Owned(bridge, chain, rec, Chain(chain));
  }

  const NOTHING := Record(false, {}, {}, false, {}, {}, false, false)

  /** With nothing left on record, the host is what it was before the run. */
  lemma NothingRecordedMeansRestored(bridge: string, chain: string, before: set<Resource>, host: set<Resource>)
    requires Separate(bridge, chain, NOTHING, before, host)
    ensures host == before
  {
    forall r | r in host ensures r in before {
      RecordedMember(bridge, chain, NOTHING, Root(r));
    }
  }

  // ----- teardown, stage by stage -----

  /** Resources that are removed one name at a time from a recorded list. */
  datatype Kind = LinkKind | NamespaceKind | PathKind

  function ResourceOf(kind: Kind, name: string): Resource {
    match kind case LinkKind => Link(name) case NamespaceKind => Namespace(name) case PathKind => Path(name)
  }

  function CommandOf(kind: Kind, name: string): Command {
    match kind case LinkKind => DeleteLink(name) case NamespaceKind => DeleteNamespace(name) case PathKind => RemovePath(name)
  }

  predicate NamedRemoved(kind: Kind, names: seq<string>, ok: Outcome, r: Resource) {
    exists i :: 0 <= i < |names| && Root(r) == ResourceOf(kind, names[i]) && ok(CommandOf(kind, names[i]))
  }

  predicate UnitRemoved(units: seq<string>, ok: Outcome, r: Resource) {
    exists i :: 0 <= i < |units| && UnitStepRemoves(units[i], ok, r)
  }

  predicate UnitStepRemoves(unit: string, ok: Outcome, r: Resource) {
    (r == Running(unit) && ok(StopUnit(unit))) || (Root(r) == UnitPath(unit) && ok(RemoveUnit(unit)))
  }

  predicate FirewallRemoved(chain: string, rec: Record, ok: Outcome, r: Resource) {
    || (rec.jump && Root(r) == Jump(chain) && ok(DeleteJump))
    || (rec.chain && Root(r) == Chain(chain) && (ok(DeleteChain) || (ok(FlushChain) && r.Within?)))
  }

  predicate SingleRemoved(present: bool, target: Resource, done: bool, r: Resource) {
    present && Root(r) == target && done
  }

  predicate ServicesRemoved(units: seq<string>, chain: string, rec: Record, ok: Outcome, r: Resource) {
    UnitRemoved(units, ok, r) || FirewallRemoved(chain, rec, ok, r)
  }

  predicate NetworkRemoved(links: seq<string>, namespaces: seq<string>, bridge: string, present: bool, ok: Outcome, r: Resource) {
    || NamedRemoved(LinkKind, links, ok, r) || NamedRemoved(NamespaceKind, namespaces, ok, r)
    || SingleRemoved(present, Bridge(bridge), ok(DeleteBridge), r)
  }

  predicate FilesRemoved(paths: seq<string>, user: bool, ok: Outcome, r: Resource) {
    NamedRemoved(PathKind, paths, ok, r) || SingleRemoved(user, User(JUL), ok(DeleteUser), r)
  }

  /** The stages together remove what a teardown removes. */
  lemma StagesRemove(bridge: string, chain: string, rec: Record, units: seq<string>, links: seq<string>, namespaces: seq<string>,
                     paths: seq<string>, ok: Outcome, r: Resource)
    requires rec.units == Elements(units) && rec.links == Elements(links)
    requires rec.namespaces == Elements(namespaces) && rec.paths == Elements(paths)
    ensures Removed(bridge, chain, rec, ok, r) <==>
            || ServicesRemoved(units, chain, rec, ok, r)
            || NetworkRemoved(links, namespaces, bridge, rec.bridge, ok, r)
            || FilesRemoved(paths, rec.user, ok, r)
  {
    RootIsARoot(r);
    RunningRoot(r);
    if Removed(bridge, chain, rec, ok, r) {
      match Root(r) {
        case Running(u) =>
          var i :| 0 <= i < |units| && units[i] == u;
          assert UnitStepRemoves(units[i], ok, r);
        case Link(l) =>
          var i :| 0 <= i < |links| && links[i] == l;
        case Namespace(n) =>
          var i :| 0 <= i < |namespaces| && namespaces[i] == n;
        case Path(p) =>
          if p in rec.paths && ok(RemovePath(p)) {
            var i :| 0 <= i < |paths| && paths[i] == p;
            assert Root(r) == ResourceOf(PathKind, paths[i]);
          } else {
            var u :| u in rec.units && UnitPath(u) == Path(p) && ok(RemoveUnit(u));
            var i :| 0 <= i < |units| && units[i] == u;
            assert UnitStepRemoves(units[i], ok, r);
          }
        case _ =>
      }
    }
  }

  lemma StagesCompose(bridge: string, chain: string, rec: Record, units: seq<string>, links: seq<string>, namespaces: seq<string>,
                      paths: seq<string>, ok: Outcome, h0: set<Resource>, h1: set<Resource>, h2: set<Resource>, h3: set<Resource>)
    requires rec.units == Elements(units) && rec.links == Elements(links)
    requires rec.namespaces == Elements(namespaces) && rec.paths == Elements(paths)
    requires h1 == set r | r in h0 && !ServicesRemoved(units, chain, rec, ok, r)
    requires h2 == set r | r in h1 && !NetworkRemoved(links, namespaces, bridge, rec.bridge, ok, r)
    requires h3 == set r | r in h2 && !FilesRemoved(paths, rec.user, ok, r)
    ensures h3 == Torn(bridge, chain, rec, ok, h0)
  {
    hide Removed, ServicesRemoved, NetworkRemoved, FilesRemoved;
    forall r ensures r in h3 <==> r in h0 && !Removed(bridge, chain, rec, ok, r) {
      StagesRemove(bridge, chain, rec, units, links, namespaces, paths, ok, r);
    }
  }

  lemma RunningRoot(r: Resource)
    ensures r.Running? ==> Root(r) == r
  {
  }

  /** Every command this teardown issues succeeds. */
  ghost predicate AllOk(rec: Record, ok: Outcome) {
    AllRemoved(rec, ok) && ok(ListNamespaces) && ok(ListLinks) && ok(ListRules)
  }

  lemma AllOkRecordsNothing(rec: Record, ok: Outcome)
    requires AllOk(rec, ok)
    ensures StillRecorded(rec, ok) == NOTHING
  {
  }

  // ----- the final inspection -----

  function HostLinks(wirings: seq<Wiring>): seq<string> {
    seq(|wirings|, i requires 0 <= i < |wirings| => wirings[i].hostLink)
  }

  function NamespaceNames(wirings: seq<Wiring>): seq<string> {
    seq(|wirings|, i requires 0 <= i < |wirings| => wirings[i].ns)
  }

  function ListedNamespaces(host: set<Resource>, names: seq<string>): (listed: seq<string>)
    ensures listed == [] <==> forall n :: n in names ==> !NamespaceListed(host, n)
  {
    if names == [] then [] else
    (if NamespaceListed(host, names[0]) then [names[0]] else []) + ListedNamespaces(host, names[1..])
  }

  function ListedLinks(host: set<Resource>, names: seq<string>): (listed: seq<string>)
    ensures listed == [] <==> forall n :: n in names ==> !LinkListed(host, n)
  {
    if names == [] then [] else
    (if LinkListed(host, names[0]) then [names[0]] else []) + ListedLinks(host, names[1..])
  }

  const CHECKED_PATHS := [BINARY] + DIRECTORIES +
    ["/etc/systemd/system/jul.service", "/etc/systemd/system/jul-readonly.service", "/etc/systemd/system/jul-f1-dashboard.service"]

  function ExistingPaths(host: set<Resource>, paths: seq<string>): (existing: seq<string>)
    ensures existing == [] <==> forall p :: p in paths ==> Path(p) !in host
  {
    if paths == [] then [] else
    (if Path(paths[0]) in host then [paths[0]] else []) + ExistingPaths(host, paths[1..])
  }

  /** No name or path the inspection looks for is already on the host. */
  ghost predicate NoLookalikes(host: set<Resource>, bridge: string, chain: string, wirings: seq<Wiring>) {
    && (forall n :: n in NamespaceNames(wirings) ==> !NamespaceListed(host, n))
    && (forall l :: l in [bridge] + HostLinks(wirings) ==> !LinkListed(host, l))
    && !RuleListed(host, chain)
    && (forall p :: p in CHECKED_PATHS ==> Path(p) !in host)
    && User(JUL) !in host
  }

  /** A labelled namespace with its veth pair; the pair is one resource, named by its host end. */
  datatype Wiring = Wiring(ns: string, hostLink: string, clientLink: string)

  // ----- child processes -----

  /** How many of the processes cannot be stopped. */
  function Stuck(stoppable: seq<bool>): nat {
    if stoppable == [] then 0 else Stuck(stoppable[..|stoppable| - 1]) + if stoppable[|stoppable| - 1] then 0 else 1
  }

  /** Spawned children, by whether they can be stopped. */
  class ProcessRegistry {
    var procs: seq<bool>

    constructor (procs: seq<bool>)
      ensures this.procs == procs
    {
      this.procs := procs;
    }

    /** `terminate_all`: one error per process that cannot be stopped, and the registry forgets all. */
    method TerminateAll() returns (errors: nat)
      modifies this
      ensures errors == Stuck(old(procs)) && procs == []
    {
      errors := 0;
      var n: nat := |procs|;
      assert procs[..n] == procs;
      while n > 0
        invariant n <= |procs| && procs == old(procs)
        invariant errors + Stuck(procs[..n]) == Stuck(procs)
      {
        n := n - 1;
        assert procs[..n + 1][..n] == procs[..n];
        if !procs[n] {
          errors := errors + 1;
        }
      }
      procs := [];
    }
  }

  // ----- the lab -----

  function Elements(names: seq<string>): set<string> {
    set name | name in names
  }

  lemma ElementsSnoc(names: seq<string>, name: string)
    ensures Elements(names + [name]) == Elements(names) + {name}
  {
  }

  class Lab {
    const host: Host
    const bridge: string
    const chain: string
    const wirings: seq<Wiring>

    var createdUser: bool
    var createdPaths: seq<string>
    var createdUnits: seq<string>
    var bridgeCreated: bool
    var createdNs: seq<string>
    var createdLinks: seq<string>
    var chainCreated: bool
    var jumpCreated: bool

    /** How many more setup commands succeed before one fails. */
    var budget: nat
    /** The host before setup. */
    ghost const before: set<Resource>

    function Rec(): Record
      reads this
    {
      Record(createdUser, Elements(createdPaths), Elements(createdUnits), bridgeCreated, Elements(createdNs),
             Elements(createdLinks), chainCreated, jumpCreated)
    }

    ghost predicate Valid()
      reads this, host
    {
      Closed(before) && Separate(bridge, chain, Rec(), before, host.resources)
    }

    constructor (host: Host, bridge: string, chain: string, wirings: seq<Wiring>, budget: nat)
      requires Closed(host.resources)
      ensures Valid() && before == host.resources && this.host == host && Rec() == NOTHING
      ensures this.bridge == bridge && this.chain == chain && this.wirings == wirings
    {
      this.host, this.bridge, this.chain, this.wirings := host, bridge, chain, wirings;
      this.budget, this.before := budget, host.resources;
      createdUser, bridgeCreated, chainCreated, jumpCreated := false, false, false, false;
      createdPaths, createdUnits, createdNs, createdLinks := [], [], [], [];
      new;
      forall r ensures !Owned(bridge, chain, NOTHING, r) {
        RootIsARoot(r);
        RecordedMember(bridge, chain, NOTHING, Root(r));
      }
    }

    /** A setup command that creates a resource. Commands such as `ip link add` refuse one that
        exists, `install` does not. */
    method Create(r: Resource, exclusive: bool) returns (ok: bool)
      modifies this`budget, host
      ensures ok ==> host.resources == old(host.resources) + {r} && (exclusive ==> r !in old(host.resources))
      ensures !ok ==> host.resources == old(host.resources)
    {
      ok := budget > 0 && !(exclusive && r in host.resources);
      if ok {
        budget := budget - 1;
        host.resources := host.resources + {r};
      }
    }

    /** A setup command that creates a resource, recorded right after. */
    method CreateRecorded(r: Resource, exclusive: bool) returns (ok: bool)
      requires Valid() && Recordable(bridge, chain, r) && (exclusive || r !in before)
      modifies this`budget, this`createdUser, this`createdPaths, this`bridgeCreated, this`createdNs, this`createdLinks,
               this`chainCreated, this`jumpCreated, host
      ensures Valid() && Rec() == if ok then With(old(Rec()), r) else old(Rec())
    {
      hide Recorded, Separate, Elements, Closed;
      ghost var rec, resources := Rec(), host.resources;
      StillThere(bridge, chain, rec, before, resources);
      ok := Create(r, exclusive);
      if ok {
        match r {
          case Bridge(_) => bridgeCreated := true;
          case Chain(_) => chainCreated := true;
          case Jump(_) => jumpCreated := true;
          case User(_) => createdUser := true;
          case Namespace(n) =>
            ElementsSnoc(createdNs, n);
            createdNs := createdNs + [n];
          case Link(n) =>
            ElementsSnoc(createdLinks, n);
            createdLinks := createdLinks + [n];
          case Path(n) =>
            ElementsSnoc(createdPaths, n);
            createdPaths := createdPaths + [n];
          case _ =>
        }
        assert Rec() == With(rec, r);
        RecordedWith(bridge, chain, rec, r);
        CreatedStaysSeparate(bridge, chain, rec, Rec(), before, resources, r);
      }
    }

    /** A setup command that installs a unit file, recorded by its unit name right after. */
    method CreateUnit(unit: string) returns (ok: bool)
      requires Valid() && UnitPath(unit) !in before && Running(unit) !in before
      modifies this`budget, this`createdUnits, host
      ensures Valid() && Rec() == if ok then old(Rec()).(units := old(Rec()).units + {unit}) else old(Rec())
      ensures createdUnits == old(createdUnits) + if ok then [unit] else []
    {
      hide Recorded, Separate;
      ghost var rec, resources := Rec(), host.resources;
      ok := Create(UnitPath(unit), false);
      if ok {
        createdUnits := createdUnits + [unit];
        assert Rec() == rec.(units := rec.units + {unit});
        RecordedWithUnit(bridge, chain, rec, unit);
        UnitPathIsAPath(unit);
        CreatedStaysSeparate(bridge, chain, rec, Rec(), before, resources, UnitPath(unit));
      }
    }

    /** A setup command that changes something inside a resource already recorded. */
    method Configure(owner: Resource, detail: string) returns (ok: bool)
      requires Valid() && owner in Recorded(bridge, chain, Rec())
      modifies this`budget, host
      ensures Valid() && Rec() == old(Rec())
    {
      hide Recorded, Separate;
      ok := budget > 0;
      if ok {
        RecordedIsARoot(bridge, chain, Rec(), owner, detail);
        ConfiguredStaysSeparate(bridge, chain, Rec(), before, host.resources, Within(owner, detail));
        budget := budget - 1;
        host.resources := host.resources + {Within(owner, detail)};
      }
    }

    /** Whatever a run does later inside its own resources, starting its units included. */
    method Operate(added: set<Resource>)
      requires Valid() && forall r :: r in added ==> Owned(bridge, chain, Rec(), r)
      modifies host
      ensures Valid() && Rec() == old(Rec()) && host.resources == old(host.resources) + added
    {
      hide Owned;
      host.resources := host.resources + added;
    }

    method ConnectNamespace(wiring: Wiring) returns (ok: bool)
      requires Valid() && bridgeCreated
      modifies this`budget, this`createdUser, this`createdPaths, this`bridgeCreated, this`createdNs, this`createdLinks,
               this`chainCreated, this`jumpCreated, host
      ensures Valid() && bridgeCreated && createdUnits == old(createdUnits)
      ensures ok ==> Namespace(wiring.ns) in Recorded(bridge, chain, Rec()) && Link(wiring.hostLink) in Recorded(bridge, chain, Rec())
      ensures Recorded(bridge, chain, old(Rec())) <= Recorded(bridge, chain, Rec())
    {
      hide Recorded, Separate;
      ghost var rec := Rec();
      ok := CreateRecorded(Namespace(wiring.ns), true);
      if !ok { return; }
      RecordedWith(bridge, chain, rec, Namespace(wiring.ns));
      rec := Rec();
      ok := CreateRecorded(Link(wiring.hostLink), true);
      if !ok { return; }
      RecordedWith(bridge, chain, rec, Link(wiring.hostLink));
      var link, ns := Link(wiring.hostLink), Namespace(wiring.ns);
      var steps := [(link, "master"), (link, "up"), (ns, wiring.clientLink), (ns, "address"), (ns, "client up"), (ns, "lo up"),
                    (ns, "default route")];
      for k := 0 to |steps|
        invariant Valid() && bridgeCreated && createdUnits == old(createdUnits) && ok
        invariant Recorded(bridge, chain, old(Rec())) <= Recorded(bridge, chain, Rec())
        invariant link in Recorded(bridge, chain, Rec()) && ns in Recorded(bridge, chain, Rec())
      {
        assert steps[k].0 == link || steps[k].0 == ns;
        ok := Configure(steps[k].0, steps[k].1);
        if !ok { return; }
      }
    }

    /** A sequence of configuration commands on one recorded resource. */
    method ConfigureAll(owner: Resource, details: seq<string>) returns (ok: bool)
      requires Valid() && owner in Recorded(bridge, chain, Rec())
      modifies this`budget, host
      ensures Valid() && Rec() == old(Rec())
    {
      hide Recorded, Separate;
      ok := true;
      for k := 0 to |details|
        invariant Valid() && Rec() == old(Rec()) && ok
      {
        ok := Configure(owner, details[k]);
        if !ok { return; }
      }
    }

    /** `setup_network`: whichever command fails, everything created is on record. */
    method SetupNetwork() returns (ok: bool)
      requires Valid()
      modifies this`budget, this`createdUser, this`createdPaths, this`bridgeCreated, this`createdNs, this`createdLinks,
               this`chainCreated, this`jumpCreated, host
      ensures Valid() && createdUnits == old(createdUnits)
      ensures ok ==> && bridgeCreated && chainCreated && jumpCreated
                     && forall i :: 0 <= i < |wirings| ==>
                          && Namespace(wirings[i].ns) in Recorded(bridge, chain, Rec())
                          && Link(wirings[i].hostLink) in Recorded(bridge, chain, Rec())
    {
      hide Recorded, Separate;
      ghost var rec := Rec();
      ok := CreateRecorded(Bridge(bridge), true);
      if !ok { return; }
      RecordedWith(bridge, chain, rec, Bridge(bridge));
      ok := ConfigureAll(Bridge(bridge), ["address", "up"]);
      if !ok { return; }
      for k := 0 to |wirings|
        invariant Valid() && bridgeCreated && createdUnits == old(createdUnits) && ok
        invariant forall i :: 0 <= i < k ==>
          && Namespace(wirings[i].ns) in Recorded(bridge, chain, Rec())
          && Link(wirings[i].hostLink) in Recorded(bridge, chain, Rec())
      {
        ok := ConnectNamespace(wirings[k]);
        if !ok { return; }
      }
      rec := Rec();
      ok := CreateRecorded(Chain(chain), true);
      if !ok { return; }
      RecordedWith(bridge, chain, rec, Chain(chain));
      rec := Rec();
      JumpIsNew(bridge, chain, rec, before, host.resources);
      ok := CreateRecorded(Jump(chain), false);
      if !ok { return; }
      RecordedWith(bridge, chain, rec, Jump(chain));
      ok := ConfigureAll(Chain(chain), ["accept 443", "accept 8443", "reject"]);
    }

    method InstallDirectories() returns (ok: bool)
      requires Valid() && NoCollisions(before)
      modifies this`budget, this`createdUser, this`createdPaths, this`bridgeCreated, this`createdNs, this`createdLinks,
               this`chainCreated, this`jumpCreated, host
      ensures Valid() && createdUnits == old(createdUnits)
      ensures ok ==> forall i :: 0 <= i < |DIRECTORIES| ==> Path(DIRECTORIES[i]) in Recorded(bridge, chain, Rec())
    {
      hide Recorded, Separate;
      ok := true;
      for k := 0 to |DIRECTORIES|
        invariant Valid() && createdUnits == old(createdUnits) && ok
        invariant forall i :: 0 <= i < k ==> Path(DIRECTORIES[i]) in Recorded(bridge, chain, Rec())
      {
        ghost var rec := Rec();
        ok := CreateRecorded(Path(DIRECTORIES[k]), false);
        if !ok { return; }
        RecordedWith(bridge, chain, rec, Path(DIRECTORIES[k]));
      }
    }

    method InstallUnits(units: seq<string>) returns (ok: bool)
      requires Valid() && NoCollisions(before) && forall i :: 0 <= i < |units| ==> units[i] in UNIT_NAMES
      modifies this`budget, this`createdUnits, host
      ensures Valid() && Recorded(bridge, chain, old(Rec())) <= Recorded(bridge, chain, Rec())
      ensures ok ==> createdUnits == old(createdUnits) + units
    {
      hide Recorded, Separate;
      ok := true;
      for k := 0 to |units|
        invariant Valid() && ok && Recorded(bridge, chain, old(Rec())) <= Recorded(bridge, chain, Rec())
        invariant createdUnits == old(createdUnits) + units[..k]
      {
        ghost var rec := Rec();
        var n :| 0 <= n < |UNIT_NAMES| && UNIT_NAMES[n] == units[k];
        ok := CreateUnit(units[k]);
        if !ok { return; }
        RecordedWithUnit(bridge, chain, rec, units[k]);
      }
    }

    /** The first half of `setup_services`: the user, the binary, the directories and their contents. */
    method InstallFiles() returns (ok: bool)
      requires Valid() && NoCollisions(before)
      modifies this`budget, this`createdUser, this`createdPaths, this`bridgeCreated, this`createdNs, this`createdLinks,
               this`chainCreated, this`jumpCreated, host
      ensures Valid() && createdUnits == old(createdUnits)
      ensures ok ==> Path(DIRECTORIES[1]) in Recorded(bridge, chain, Rec())
    {
      hide Recorded, Separate;
      ok := CreateRecorded(User(JUL), true);
      if !ok { return; }
      ok := CreateRecorded(Path(BINARY), false);
      if !ok { return; }
      ok := InstallDirectories();
      if !ok { return; }
      var etc, lib := Path(DIRECTORIES[0]), Path(DIRECTORIES[1]);
      ok := ConfigureAll(lib, ["private", "config-history", "private/effective-version.key"]);
      if !ok { return; }
      ok := ConfigureAll(etc, ["private", "private/effective-version.key", "tls", "portal", "dashboard.htpasswd",
                               "dashboard-revoked.htpasswd", "ownership", "modes"]);
      if !ok { return; }
      ok := ConfigureAll(lib, ["private/f1.env"]);
    }

    /** `setup_services`, run after the collision check has passed on the original host. */
    method SetupServices() returns (ok: bool)
      requires Valid() && NoCollisions(before)
      modifies this`budget, this`createdUser, this`createdPaths, this`createdUnits, this`bridgeCreated, this`createdNs,
               this`createdLinks, this`chainCreated, this`jumpCreated, host
      ensures Valid()
      ensures ok ==> createdUnits == old(createdUnits) + UNIT_NAMES
    {
      hide Recorded, Separate, Owned;
      ok := InstallFiles();
      if !ok { return; }
      ok := InstallUnits(["jul.service", "jul-readonly.service"]);
      if !ok { return; }
      ok := ConfigureAll(Path(DIRECTORIES[1]), ["dashboard_backend.py"]);
      if !ok { return; }
      ok := InstallUnits([DASHBOARD]);
      if !ok { return; }
      assert createdUnits == old(createdUnits) + UNIT_NAMES;
      ok := budget > 0;
      if ok {
        budget := budget - 1;
        assert createdUnits[|createdUnits| - 1] == DASHBOARD;
        RunningIsOwned(bridge, chain, Rec(), DASHBOARD);
        Operate({Running(DASHBOARD)});
      }
    }

    /** Removes the recorded resources of one kind, newest first, and returns those that failed. */
    method RemoveNamed(kind: Kind, names: seq<string>, ok: Outcome) returns (remaining: seq<string>, errors: seq<Command>)
      modifies host
      ensures host.resources == set r | r in old(host.resources) && !NamedRemoved(kind, names, ok, r)
      ensures Elements(remaining) == set n | n in names && !ok(CommandOf(kind, n))
      ensures errors == [] <==> forall n :: n in names ==> ok(CommandOf(kind, n))
    {
      hide Root;
      remaining, errors := [], [];
      var k := |names|;
      assert names[k..] == [];
      while k > 0
        invariant 0 <= k <= |names|
        invariant host.resources == set r | r in old(host.resources) && !NamedRemoved(kind, names[k..], ok, r)
        invariant forall n :: n in remaining <==> n in names[k..] && !ok(CommandOf(kind, n))
        invariant errors == [] <==> forall n :: n in names[k..] ==> ok(CommandOf(kind, n))
      {
        ghost var rest := names[k..];
        k := k - 1;
        var name := names[k];
        assert names[k..] == [name] + rest;
        NamedRemovedCons(kind, name, rest, ok);
        if ok(CommandOf(kind, name)) {
          host.resources := Without(host.resources, ResourceOf(kind, name));
        }
        NamedRoot(kind, name);
        if !ok(CommandOf(kind, name)) || (kind.PathKind? && ResourceOf(kind, name) in host.resources) {
          errors := errors + [CommandOf(kind, name)];
          remaining := remaining + [name];
        }
      }
      assert names[0..] == names;
    }

    /** Stops each recorded unit and removes its file; a unit with either failure stays recorded. */
    method RemoveUnits(ok: Outcome) returns (errors: seq<Command>)
      modifies this`createdUnits, host
      ensures host.resources == set r | r in old(host.resources) && !UnitRemoved(old(createdUnits), ok, r)
      ensures Elements(createdUnits) == set u | u in old(createdUnits) && !UnitGone(ok, u)
      ensures errors == [] <==> forall u :: u in old(createdUnits) ==> UnitGone(ok, u)
    {
      hide Root, UnitPath, UnitStepRemoves;
      var units := createdUnits;
      var remaining: seq<string> := [];
      errors := [];
      var k := |units|;
      assert units[k..] == [];
      while k > 0
        invariant 0 <= k <= |units| && createdUnits == units
        invariant host.resources == set r | r in old(host.resources) && !UnitRemoved(units[k..], ok, r)
        invariant forall u :: u in remaining <==> u in units[k..] && !UnitGone(ok, u)
        invariant errors == [] <==> forall u :: u in units[k..] ==> UnitGone(ok, u)
      {
        ghost var rest := units[k..];
        ghost var start := host.resources;
        k := k - 1;
        var unit := units[k];
        assert units[k..] == [unit] + rest;
        UnitRemovedCons(unit, rest, ok);
        RemoveUnit1(unit, ok);
        if !UnitGone(ok, unit) {
          errors := errors + [StopUnit(unit)];
          remaining := remaining + [unit];
        }
      }
      assert units[0..] == units;
      createdUnits := remaining;
    }

    method RemoveUnit1(unit: string, ok: Outcome)
      modifies host
      ensures host.resources == set r | r in old(host.resources) && !UnitStepRemoves(unit, ok, r)
    {
      if ok(StopUnit(unit)) {
        host.resources := host.resources - {Running(unit)};
      }
      if ok(RemoveUnit(unit)) {
        host.resources := Without(host.resources, UnitPath(unit));
      }
    }

    /** Removes the jump rule and the chain; a chain goes off the record only when both of its
        commands succeed. */
    method RemoveFirewall(ok: Outcome) returns (errors: seq<Command>)
      modifies this`jumpCreated, this`chainCreated, host
      ensures host.resources == set r | r in old(host.resources) && !FirewallRemoved(chain, old(Rec()), ok, r)
      ensures jumpCreated == (old(jumpCreated) && !ok(DeleteJump)) && chainCreated == (old(chainCreated) && !ChainGone(ok))
      ensures errors == [] <==> (old(jumpCreated) ==> ok(DeleteJump)) && (old(chainCreated) ==> ChainGone(ok))
    {
      hide Root;
      errors := [];
      if jumpCreated {
        if ok(DeleteJump) {
          host.resources := Without(host.resources, Jump(chain));
          jumpCreated := false;
        } else {
          errors := errors + [DeleteJump];
        }
      }
      if chainCreated {
        if ok(FlushChain) {
          host.resources := set r | r in host.resources && !(r.Within? && Root(r) == Chain(chain));
        }
        if ok(DeleteChain) {
          host.resources := Without(host.resources, Chain(chain));
        }
        if ok(FlushChain) && ok(DeleteChain) {
          chainCreated := false;
        } else {
          errors := errors + [DeleteChain];
        }
      }
    }

    /** Units and firewall. */
    method RemoveServices(ok: Outcome) returns (errors: seq<Command>)
      modifies this`createdUnits, this`jumpCreated, this`chainCreated, host
      ensures host.resources == set r | r in old(host.resources) && !ServicesRemoved(old(createdUnits), chain, old(Rec()), ok, r)
      ensures Elements(createdUnits) == set u | u in Elements(old(createdUnits)) && !UnitGone(ok, u)
      ensures jumpCreated == (old(jumpCreated) && !ok(DeleteJump)) && chainCreated == (old(chainCreated) && !ChainGone(ok))
      ensures errors == [] <==> && (forall u :: u in Elements(old(createdUnits)) ==> UnitGone(ok, u)) && ok(Reload)
                                && (old(jumpCreated) ==> ok(DeleteJump)) && (old(chainCreated) ==> ChainGone(ok))
    {
      hide UnitRemoved, UnitGone, ChainGone, Root;
      errors := RemoveUnits(ok);
      if !ok(Reload) {
        errors := errors + [Reload];
      }
      var firewall := RemoveFirewall(ok);
      errors := errors + firewall;
    }

    /** Links, namespaces and the bridge. */
    method RemoveNetwork(ok: Outcome) returns (errors: seq<Command>)
      modifies this`createdLinks, this`createdNs, this`bridgeCreated, host
      ensures host.resources == set r | r in old(host.resources) &&
                !NetworkRemoved(old(createdLinks), old(createdNs), bridge, old(bridgeCreated), ok, r)
      ensures Elements(createdLinks) == set l | l in Elements(old(createdLinks)) && !ok(DeleteLink(l))
      ensures Elements(createdNs) == set n | n in Elements(old(createdNs)) && !ok(DeleteNamespace(n))
      ensures bridgeCreated == (old(bridgeCreated) && !ok(DeleteBridge))
      ensures errors == [] <==> && (forall l :: l in Elements(old(createdLinks)) ==> ok(DeleteLink(l)))
                                && (forall n :: n in Elements(old(createdNs)) ==> ok(DeleteNamespace(n)))
                                && (old(bridgeCreated) ==> ok(DeleteBridge))
    {
      hide NamedRemoved, SingleRemoved;
      var links, linkErrors := RemoveNamed(LinkKind, createdLinks, ok);
      createdLinks := links;
      var namespaces, nsErrors := RemoveNamed(NamespaceKind, createdNs, ok);
      createdNs := namespaces;
      var bridgeErrors := RemoveSingle(bridgeCreated, Bridge(bridge), DeleteBridge, ok);
      bridgeCreated := bridgeCreated && !ok(DeleteBridge);
      errors := linkErrors + nsErrors + bridgeErrors;
    }

    /** Installed paths and the user. */
    method RemoveFiles(ok: Outcome) returns (errors: seq<Command>)
      modifies this`createdPaths, this`createdUser, host
      ensures host.resources == set r | r in old(host.resources) && !FilesRemoved(old(createdPaths), old(createdUser), ok, r)
      ensures Elements(createdPaths) == set p | p in Elements(old(createdPaths)) && !ok(RemovePath(p))
      ensures createdUser == (old(createdUser) && !ok(DeleteUser))
      ensures errors == [] <==> (forall p :: p in Elements(old(createdPaths)) ==> ok(RemovePath(p))) && (old(createdUser) ==> ok(DeleteUser))
    {
      hide NamedRemoved, SingleRemoved;
      var paths, pathErrors := RemoveNamed(PathKind, createdPaths, ok);
      createdPaths := paths;
      var userErrors := RemoveSingle(createdUser, User(JUL), DeleteUser, ok);
      createdUser := createdUser && !ok(DeleteUser);
      errors := pathErrors + userErrors;
    }

    /** The removing half of `teardown`. For every pattern of failing commands it removes exactly
        the recorded resources whose commands succeed, and records exactly those whose removal
        step failed. */
    method RemoveAll(ok: Outcome) returns (errors: seq<Command>)
      requires Valid()
      modifies this`createdUser, this`createdPaths, this`createdUnits, this`bridgeCreated, this`createdNs, this`createdLinks,
               this`chainCreated, this`jumpCreated, host
      ensures host.resources == Torn(bridge, chain, old(Rec()), ok, old(host.resources))
      ensures Rec() == StillRecorded(old(Rec()), ok)
      ensures errors == [] <==> AllRemoved(old(Rec()), ok)
      ensures Valid() && before <= host.resources
    {
      hide Elements, Torn, ServicesRemoved, NetworkRemoved, FilesRemoved, Separate, UnitGone, ChainGone;
      ghost var rec, h0 := Rec(), host.resources;
      var services := RemoveServices(ok);
      ghost var h1 := host.resources;
      var network := RemoveNetwork(ok);
      ghost var h2 := host.resources;
      var files := RemoveFiles(ok);
      errors := services + network + files;
      StagesCompose(bridge, chain, rec, old(createdUnits), old(createdLinks), old(createdNs), old(createdPaths), ok,
                    h0, h1, h2, host.resources);
      assert Rec() == StillRecorded(rec, ok);
      TeardownStaysSeparate(bridge, chain, rec, ok, before, h0);
      StillThere(bridge, chain, Rec(), before, host.resources);
    }

    method RemoveSingle(present: bool, target: Resource, command: Command, ok: Outcome) returns (errors: seq<Command>)
      modifies host
      ensures host.resources == set r | r in old(host.resources) && !SingleRemoved(present, target, ok(command), r)
      ensures errors == [] <==> (present ==> ok(command))
    {
      errors := [];
      if present {
        if ok(command) {
          host.resources := Without(host.resources, target);
        } else {
          errors := [command];
        }
      }
    }

    /** `teardown`: the report calls the host clean exactly when every command succeeded and the
        original host had nothing the inspection mistakes for a leftover; and then the host is
        what it was before the run, with nothing on record. */
    method Teardown(ok: Outcome, registry: ProcessRegistry) returns (report: Report)
      requires Valid()
      modifies this`createdUser, this`createdPaths, this`createdUnits, this`bridgeCreated, this`createdNs, this`createdLinks,
               this`chainCreated, this`jumpCreated, host, registry
      ensures host.resources == Torn(bridge, chain, old(Rec()), ok, old(host.resources)) && before <= host.resources
      ensures Valid() && Rec() == StillRecorded(old(Rec()), ok)
      ensures report.clean ==> host.resources == before && Rec() == NOTHING
      ensures report.clean <==> Stuck(old(registry.procs)) == 0 && AllOk(old(Rec()), ok) && NoLookalikes(before, bridge, chain, wirings)
    {
      hide Torn, Separate, NamespaceListed, LinkListed, RuleListed, UnitGone, ChainGone;
      ghost var rec := Rec();
      var processErrors := registry.TerminateAll();
      var errors := RemoveAll(ok);
      var verification: seq<Command> := [];
      var leftNs, leftLinks, leftFirewall;
      if !ok(ListNamespaces) {
        verification := verification + [ListNamespaces];
        leftNs := createdNs;
      } else {
        leftNs := ListedNamespaces(host.resources, NamespaceNames(wirings));
      }
      if !ok(ListLinks) {
        verification := verification + [ListLinks];
        leftLinks := createdLinks + if bridgeCreated then [bridge] else [];
      } else {
        leftLinks := ListedLinks(host.resources, [bridge] + HostLinks(wirings) + createdLinks);
      }
      if !ok(ListRules) {
        verification := verification + [ListRules];
        leftFirewall := chainCreated || jumpCreated;
      } else {
        leftFirewall := RuleListed(host.resources, chain);
      }
      var leftPaths := ExistingPaths(host.resources, CHECKED_PATHS);
      var userRemaining := createdUser || User(JUL) in host.resources;
      var clean := && errors == [] && processErrors == 0 && verification == []
                   && leftNs == [] && leftLinks == [] && !leftFirewall && leftPaths == [] && !userRemaining
                   && !bridgeCreated && !chainCreated && !jumpCreated;
      report := Report(clean, leftNs, leftLinks, leftFirewall, leftPaths, userRemaining, errors, verification);
      if AllOk(rec, ok) {
        AllOkRecordsNothing(rec, ok);
        NothingRecordedMeansRestored(bridge, chain, before, host.resources);
        NoElements(createdLinks);
        assert [bridge] + HostLinks(wirings) + createdLinks == [bridge] + HostLinks(wirings);
      }
    }
  }

  lemma NoElements(names: seq<string>)
    ensures Elements(names) == {} ==> names == []
  {
    if names != [] {
      assert names[0] in Elements(names);
    }
  }

  /** The removing half of the commands succeeds. */
  ghost predicate AllRemoved(rec: Record, ok: Outcome) {
    && (forall u :: u in rec.units ==> UnitGone(ok, u)) && ok(Reload)
    && (rec.jump ==> ok(DeleteJump)) && (rec.chain ==> ChainGone(ok))
    && (forall l :: l in rec.links ==> ok(DeleteLink(l))) && (forall n :: n in rec.namespaces ==> ok(DeleteNamespace(n)))
    && (rec.bridge ==> ok(DeleteBridge)) && (forall p :: p in rec.paths ==> ok(RemovePath(p)))
    && (rec.user ==> ok(DeleteUser))
  }

  lemma NamedRoot(kind: Kind, name: string)
    ensures Root(ResourceOf(kind, name)) == ResourceOf(kind, name)
  {
  }

  lemma NamedRemovedCons(kind: Kind, name: string, rest: seq<string>, ok: Outcome)
    ensures forall r :: NamedRemoved(kind, [name] + rest, ok, r) <==>
                        NamedRemoved(kind, rest, ok, r) || (Root(r) == ResourceOf(kind, name) && ok(CommandOf(kind, name)))
  {
    hide Root;
    var names := [name] + rest;
    assert names[0] == name;
    assert forall i :: 0 <= i < |rest| ==> names[i + 1] == rest[i];
    assert forall i :: 1 <= i < |names| ==> names[i] == rest[i - 1];
    forall r | NamedRemoved(kind, names, ok, r) && !NamedRemoved(kind, rest, ok, r)
      ensures Root(r) == ResourceOf(kind, name) && ok(CommandOf(kind, name))
    {
      var i :| 0 <= i < |names| && Root(r) == ResourceOf(kind, names[i]) && ok(CommandOf(kind, names[i]));
    }
  }

  lemma UnitRemovedCons(unit: string, rest: seq<string>, ok: Outcome)
    ensures forall r :: UnitRemoved([unit] + rest, ok, r) <==> UnitRemoved(rest, ok, r) || UnitStepRemoves(unit, ok, r)
  {
    hide UnitStepRemoves;
    var units := [unit] + rest;
    assert units[0] == unit;
    assert forall i :: 0 <= i < |rest| ==> units[i + 1] == rest[i];
    assert forall i :: 1 <= i < |units| ==> units[i] == rest[i - 1];
    forall r | UnitRemoved(units, ok, r) && !UnitRemoved(rest, ok, r) ensures UnitStepRemoves(unit, ok, r) {
      var i :| 0 <= i < |units| && UnitStepRemoves(units[i], ok, r);
    }
  }

  lemma RunningIsOwned(bridge: string, chain: string, rec: Record, unit: string)
    requires unit in rec.units
    ensures Owned(bridge, chain, rec, Running(unit))
  {
  }

  lemma StillThere(bridge: string, chain: string, rec: Record, before: set<Resource>, host: set<Resource>)
    requires Separate(bridge, chain, rec, before, host)
    ensures before <= host
  {
  }

  /** A whole lab run: the collision check, setup up to whichever command fails, anything done
      later inside what was created, and what always follows: stopping the children, with the
      errors dropped, and the teardown. Whatever fails, nothing the host had before is lost and
      whatever is left over is on record. The report says clean exactly when every teardown
      command succeeds and the original host had nothing that looks like a leftover; so a child
      that could not be stopped never shows in it. */
  method RunLab(start: set<Resource>, bridge: string, chain: string, wirings: seq<Wiring>, budget: nat, listening: set<int>,
                listOk: bool, later: set<Resource>, ok: Outcome, children: seq<bool>)
    returns (final: set<Resource>, made: Record, left: Record, report: Report)
    requires Closed(start)
    ensures start <= final && left == StillRecorded(made, ok)
    ensures forall r :: r in final && r !in start ==> Owned(bridge, chain, left, r)
    ensures report.clean <==> AllOk(made, ok) && NoLookalikes(start, bridge, chain, wirings)
    ensures report.clean ==> final == start && left == NOTHING
    ensures (report.clean ==> Stuck(children) == 0) <==>
            Stuck(children) == 0 || !(AllOk(made, ok) && NoLookalikes(start, bridge, chain, wirings))
    ensures !Vacant(start, NamespaceNames(wirings), listening, listOk) ==> made == NOTHING
  {
    hide Torn, Recorded, NoLookalikes, AllOk, StillRecorded, NoCollisions, Vacant, Justified, Owned;
    var host := new Host(start);
    var check := VerifyNoCollisions(host, NamespaceNames(wirings), listening, listOk);
    var registry := new ProcessRegistry(children);
    var lab := new Lab(host, bridge, chain, wirings, budget);
    if check.Passed? {
      VacantMeansNoCollisions(start, NamespaceNames(wirings), listening, listOk);
      var set' := lab.SetupNetwork();
      if set' {
        set' := lab.SetupServices();
      }
      lab.Operate(set r | r in later && Owned(bridge, chain, lab.Rec(), r));
    }
    made := lab.Rec();
    var dropped := registry.TerminateAll();
    report := lab.Teardown(ok, registry);
    final, left := host.resources, lab.Rec();
  }

  function Succeeds(command: Command): bool {
    true
  }

  /** On an empty host, with a child that cannot be stopped and every command succeeding, the run is
      reported clean. */
  method StuckChildIsNotReported() returns (report: Report)
    ensures report.clean && Stuck([false]) == 1
  {
    var final, made, left;
    final, made, left, report := RunLab({}, "br", "CH", [], 0, {}, true, {}, Succeeds, [false]);
    assert [false][..0] == [];
  }
}
