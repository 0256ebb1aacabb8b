/**
  The managed roots: the directories the server may act in, changed at run
  time within what the administrator configured, saved, and pushed to the
  targets that resolve paths. The executor keeps the configured roots.
 */
module ManagedRoots {
  import opened Wrappers
  import opened Paths
  import opened Contracts

  /** What resolving the symbolic links of a path can come to. */
  datatype Resolution = Resolved(path: Path) | Missing | Failed

  type Resolver = Path -> Resolution

  /** The file system resolves clean paths to clean paths. */
  ghost predicate ResolvesClean(resolve: Resolver) {
    forall p :: CleanPath(p) && resolve(p).Resolved? ==> CleanPath(resolve(p).path)
  }

  datatype Config = Config(
    lab: seq<Path>, allowed: seq<Path>, quarantine: Path, read: seq<Path>, services: seq<string>, executables: seq<string>)

  /** The administrator's file, before anything is checked. */
  datatype RawConfig = RawConfig(
    schemaVersion: int, lab: seq<string>, allowed: seq<string>, quarantine: string, read: seq<string>, services: seq<string>,
    executables: seq<string>)

  // ----- checks

  /** normalizeAllowlistRoot. */
  function NormalizeRoot(value: string, resolve: Resolver): Option<Path> {
    var text := Trim(value);
    if text == "" || !IsAbsolute(text) || Cleaned(text) == [] then None
    else
      var clean := Cleaned(text);
      var r := resolve(clean);
      if r.Failed? || (r.Resolved? && r.path == []) then None
      else if r.Resolved? then Some(r.path)
      else Some(clean)
  }

  /** A managed root is an absolute path, resolved where it exists, and neither before nor after that the whole file system. */
  lemma {:induction false} NormalizedIff(value: string, resolve: Resolver)
    ensures var clean := Cleaned(Trim(value));
            && (NormalizeRoot(value, resolve).Some? <==>
                  IsAbsolute(Trim(value)) && clean != [] && !resolve(clean).Failed? && resolve(clean) != Resolved([]))
            && (NormalizeRoot(value, resolve).Some? ==>
                  NormalizeRoot(value, resolve).value == if resolve(clean).Resolved? then resolve(clean).path else clean)
  {
  }

  predicate SameOrInside(path: Path, root: Path) {
    Inside(root, path)
  }

  predicate Overlap(a: Path, b: Path) {
    SameOrInside(a, b) || SameOrInside(b, a)
  }

  predicate Clashes(root: Path, quarantine: Option<Path>) {
    quarantine.Some? && Overlap(root, quarantine.value)
  }

  predicate Admissible(value: string, quarantine: Option<Path>, resolve: Resolver) {
    var root := NormalizeRoot(value, resolve);
    root.Some? && !Clashes(root.value, quarantine)
  }

  function AppendUnique(values: seq<Path>, next: Path): (r: seq<Path>)
    ensures forall p :: p in r <==> p in values || p == next
  {
    if next in values then values else values + [next]
  }

  ghost predicate Distinct(roots: seq<Path>) {
    forall i, j | 0 <= i < j < |roots| :: roots[i] != roots[j]
  }

  ghost predicate CleanRoots(roots: seq<Path>) {
    forall root <- roots :: CleanPath(root) && root != []
  }

  /** Neither path contains the other. */
  ghost predicate Apart(a: Path, b: Path) {
    !(a <= b) && !(b <= a)
  }

  ghost predicate ApartFrom(roots: seq<Path>, quarantine: Path) {
    forall root <- roots :: Apart(root, quarantine)
  }

  /** A path lies under one of the roots, component by component. */
  ghost predicate Under(path: Path, roots: seq<Path>) {
    exists root <- roots :: root <= path
  }

  ghost predicate AllUnder(roots: seq<Path>, maximum: seq<Path>) {
    forall root <- roots :: Under(root, maximum)
  }

  lemma {:induction false} OverlapIsNotApart(a: Path, b: Path)
    requires CleanPath(a) && CleanPath(b)
    ensures Overlap(a, b) <==> !Apart(a, b)
  {
    InsideIsPrefix(a, b);
    InsideIsPrefix(b, a);
  }

  lemma {:induction false} NormalizedIsClean(value: string, resolve: Resolver)
    requires ResolvesClean(resolve) && NormalizeRoot(value, resolve).Some?
    ensures CleanPath(NormalizeRoot(value, resolve).value) && NormalizeRoot(value, resolve).value != []
  {
    CleanedIsClean(Trim(value));
  }

  /** The roots some values stand for. */
  ghost predicate StandsFor(roots: seq<Path>, values: seq<string>, resolve: Resolver) {
    forall p :: p in roots <==> exists v <- values :: NormalizeRoot(v, resolve) == Some(p)
  }

  /** normalizeAllowlistRoots: all of the values or none. */
  method NormalizeRoots(values: seq<string>, quarantine: Option<Path>, resolve: Resolver) returns (r: Option<seq<Path>>)
    requires ResolvesClean(resolve) && (quarantine.Some? ==> CleanPath(quarantine.value))
    ensures r.Some? <==> values != [] && forall v <- values :: Admissible(v, quarantine, resolve)
    ensures r.Some? ==> r.value != [] && Distinct(r.value) && CleanRoots(r.value)
    ensures r.Some? && quarantine.Some? ==> ApartFrom(r.value, quarantine.value)
    ensures r.Some? ==> StandsFor(r.value, values, resolve)
  {
    if values == [] {
      return None;
    }
    var out: seq<Path> := [];
    var i := 0;
    while i < |values|
      invariant 0 <= i <= |values|
      invariant i > 0 ==> out != []
      invariant forall v <- values[..i] :: Admissible(v, quarantine, resolve)
      invariant Distinct(out) && CleanRoots(out)
      invariant quarantine.Some? ==> ApartFrom(out, quarantine.value)
      invariant forall p :: p in out <==> exists v <- values[..i] :: NormalizeRoot(v, resolve) == Some(p)
    {
      assert values[i] in values && values[..i + 1] == values[..i] + [values[i]];
      if !Admissible(values[i], quarantine, resolve) {
        return None;
      }
      NormalizedIsClean(values[i], resolve);
      if quarantine.Some? {
        OverlapIsNotApart(NormalizeRoot(values[i], resolve).value, quarantine.value);
      }
      out := AppendUnique(out, NormalizeRoot(values[i], resolve).value);
      i := i + 1;
    }
    assert values[..|values|] == values;
    return Some(out);
  }

  /** A root that may be read: like a managed one, but the whole file system is not too broad. */
  function ReadRoot(value: string, resolve: Resolver): Option<Path> {
    var text := Trim(value);
    if text == "" || !IsAbsolute(text) then None
    else
      var r := resolve(Cleaned(text));
      if r.Failed? then None else if r.Resolved? then Some(r.path) else Some(Cleaned(text))
  }

  /** It is an absolute path, resolved where it exists. */
  lemma {:induction false} ReadableIff(value: string, resolve: Resolver)
    ensures var clean := Cleaned(Trim(value));
            && (ReadRoot(value, resolve).Some? <==> IsAbsolute(Trim(value)) && !resolve(clean).Failed?)
            && (ReadRoot(value, resolve).Some? ==>
                  ReadRoot(value, resolve).value == if resolve(clean).Resolved? then resolve(clean).path else clean)
  {
  }

  /** Without a list everything may be read. */
  function ReadValues(values: seq<string>): seq<string> {
    if values == [] then ["/"] else values
  }

  /** normalizeReadOnlyRoots: all of the values or none. */
  method NormalizeReadOnlyRoots(values: seq<string>, resolve: Resolver) returns (r: Option<seq<Path>>)
    ensures r.Some? <==> forall v <- ReadValues(values) :: ReadRoot(v, resolve).Some?
    ensures r.Some? ==> Distinct(r.value)
    ensures r.Some? ==> forall p :: p in r.value <==> exists v <- ReadValues(values) :: ReadRoot(v, resolve) == Some(p)
  {
    var all := values;
    if values == [] {
      all := ["/"];
    }
    var out: seq<Path> := [];
    var i := 0;
    while i < |all|
      invariant 0 <= i <= |all| && Distinct(out)
      invariant forall v <- all[..i] :: ReadRoot(v, resolve).Some?
      invariant forall p :: p in out <==> exists v <- all[..i] :: ReadRoot(v, resolve) == Some(p)
    {
      assert all[i] in all && all[..i + 1] == all[..i] + [all[i]];
      var root := ReadRoot(all[i], resolve);
      if root.None? {
        return None;
      }
      out := AppendUnique(out, root.value);
      i := i + 1;
    }
    assert all[..|all|] == all;
    return Some(out);
  }

  /** withinAny. */
  method IsWithinAny(path: Path, roots: seq<Path>) returns (within: bool)
    requires CleanPath(path) && CleanRoots(roots)
    ensures within <==> Under(path, roots)
  {
    var i := 0;
    while i < |roots|
      invariant 0 <= i <= |roots|
      invariant forall k | 0 <= k < i :: !(roots[k] <= path)
    {
      assert roots[i] in roots;
      InsideIsPrefix(roots[i], path);
      if SameOrInside(path, roots[i]) {
        return true;
      }
      i := i + 1;
    }
    return false;
  }

  /** validateRootsWithin. */
  method ValidateRootsWithin(roots: seq<Path>, maximum: seq<Path>) returns (ok: bool)
    requires CleanRoots(roots) && CleanRoots(maximum)
    ensures ok <==> AllUnder(roots, maximum)
  {
    var i := 0;
    while i < |roots|
      invariant 0 <= i <= |roots|
      invariant forall k | 0 <= k < i :: Under(roots[k], maximum)
    {
      assert roots[i] in roots;
      var allowed := IsWithinAny(roots[i], maximum);
      if !allowed {
        return false;
      }
      i := i + 1;
    }
    return true;
  }

  // ----- the administrator's configuration

  /** What a loaded configuration guarantees. */
  ghost predicate Sound(c: Config) {
    && c.lab != [] && CleanRoots(c.lab) && CleanRoots(c.allowed) && CleanPath(c.quarantine) && c.quarantine != []
    && ApartFrom(c.lab, c.quarantine)
    && AllUnder(c.lab, c.allowed)
    && Under(c.quarantine, c.allowed)
  }

  ghost predicate CoveredBy(p: Path, values: seq<string>, resolve: Resolver) {
    exists v <- values :: NormalizeRoot(v, resolve).Some? && NormalizeRoot(v, resolve).value <= p
  }

  /** Exactly when the administrator's file is accepted. */
  ghost predicate Loadable(raw: RawConfig, resolve: Resolver) {
    var quarantine := NormalizeRoot(raw.quarantine, resolve);
    && raw.schemaVersion == 1
    && quarantine.Some?
    && (forall v <- ReadValues(raw.read) :: ReadRoot(v, resolve).Some?)
    && raw.lab != [] && (forall v <- raw.lab :: Admissible(v, quarantine, resolve))
    && raw.allowed != [] && (forall v <- raw.allowed :: Admissible(v, None, resolve))
    && (forall v <- raw.lab :: NormalizeRoot(v, resolve).Some? && CoveredBy(NormalizeRoot(v, resolve).value, raw.allowed, resolve))
    && CoveredBy(quarantine.value, raw.allowed, resolve)
  }

  lemma {:induction false} CoveredIsUnder(p: Path, roots: seq<Path>, values: seq<string>, resolve: Resolver)
    requires StandsFor(roots, values, resolve)
    ensures CoveredBy(p, values, resolve) <==> Under(p, roots)
  {
    if Under(p, roots) {
      var root :| root in roots && root <= p;
      var v :| v in values && NormalizeRoot(v, resolve) == Some(root);
      assert CoveredBy(p, values, resolve);
    }
    if CoveredBy(p, values, resolve) {
      var v :| v in values && NormalizeRoot(v, resolve).Some? && NormalizeRoot(v, resolve).value <= p;
      assert NormalizeRoot(v, resolve).value in roots;
    }
  }

  lemma {:induction false} CoverageIsCheck(lab: seq<Path>, labValues: seq<string>, allowed: seq<Path>, values: seq<string>, resolve: Resolver)
    requires StandsFor(lab, labValues, resolve) && StandsFor(allowed, values, resolve)
    requires forall v <- labValues :: NormalizeRoot(v, resolve).Some?
    ensures AllUnder(lab, allowed) <==> forall v <- labValues :: NormalizeRoot(v, resolve).Some? && CoveredBy(NormalizeRoot(v, resolve).value, values, resolve)
  {
    forall p
      ensures CoveredBy(p, values, resolve) <==> Under(p, allowed)
    {
      CoveredIsUnder(p, allowed, values, resolve);
    }
    forall v | v in labValues
      ensures NormalizeRoot(v, resolve).value in lab
    {
    }
    forall root | root in lab
      ensures exists v <- labValues :: NormalizeRoot(v, resolve) == Some(root)
    {
    }
  }

  method LoadConfig(raw: RawConfig, resolve: Resolver) returns (r: Option<Config>)
    requires ResolvesClean(resolve)
    ensures r.Some? <==> Loadable(raw, resolve)
    ensures r.Some? ==> Sound(r.value) && Some(r.value.quarantine) == NormalizeRoot(raw.quarantine, resolve)
    ensures r.Some? ==> StandsFor(r.value.lab, raw.lab, resolve) && StandsFor(r.value.allowed, raw.allowed, resolve)
    ensures r.Some? ==> Distinct(r.value.read) && forall p :: p in r.value.read <==> exists v <- ReadValues(raw.read) :: ReadRoot(v, resolve) == Some(p)
    ensures r.Some? ==> r.value.executables == raw.executables && |r.value.services| == |raw.services|
    ensures r.Some? ==> forall k | 0 <= k < |raw.services| :: r.value.services[k] == Lower(Trim(raw.services[k]))
  {
    if raw.schemaVersion != 1 {
      return None;
    }
    var services := seq(|raw.services|, i requires 0 <= i < |raw.services| => Lower(Trim(raw.services[i])));
    if raw.lab == [] || raw.quarantine == "" {
      return None;
    }
    var quarantine := NormalizeRoot(raw.quarantine, resolve);
    if quarantine.None? {
      return None;
    }
    NormalizedIsClean(raw.quarantine, resolve);
    var lab := NormalizeRoots(raw.lab, quarantine, resolve);
    if lab.None? {
      return None;
    }
    var read := NormalizeReadOnlyRoots(raw.read, resolve);
    if read.None? {
      return None;
    }
    var allowed := NormalizeRoots(raw.allowed, None, resolve);
    if allowed.None? {
      return None;
    }
    CoverageIsCheck(lab.value, raw.lab, allowed.value, raw.allowed, resolve);
    CoveredIsUnder(quarantine.value, allowed.value, raw.allowed, resolve);
    var labOk := ValidateRootsWithin(lab.value, allowed.value);
    var quarantineOk := ValidateRootsWithin([quarantine.value], allowed.value);
    if !labOk || !quarantineOk {
      return None;
    }
    return Some(Config(lab.value, allowed.value, quarantine.value, read.value, services, raw.executables));
  }

  // ----- what the roots mean

  /** What the server accepts after an update, against what was configured. */
  ghost predicate Safe(server: seq<Path>, managed: seq<Path>, c: Config) {
    && managed != [] && CleanRoots(managed)
    && AllUnder(managed, c.lab) && ApartFrom(managed, c.quarantine)
    && server == AppendUnique(managed, c.quarantine)
  }

  lemma {:induction false} UnderTrans(p: Path, roots: seq<Path>, maximum: seq<Path>)
    requires AllUnder(roots, maximum) && Under(p, roots)
    ensures Under(p, maximum)
  {
    var root :| root in roots && root <= p;
    var m :| m in maximum && m <= root;
    assert m <= p;
  }

  /** Every path the server accepts is one the administrator gave away or one in quarantine, and the executor's scope accepts it too. */
  lemma {:induction false} ServerStaysInScope(server: seq<Path>, managed: seq<Path>, c: Config, p: Path)
    requires Sound(c) && Safe(server, managed, c) && Under(p, server)
    ensures Under(p, c.lab) || c.quarantine <= p
    ensures Under(p, c.allowed)
  {
    var root :| root in server && root <= p;
    if root in managed {
      assert Under(p, managed);
      UnderTrans(p, managed, c.lab);
      UnderTrans(p, c.lab, c.allowed);
    } else {
      UnderTrans(p, [c.quarantine], c.allowed);
    }
  }

  /** The same said with the tests that server and executor make on the text of the paths. */
  lemma {:induction false} ServerAcceptsLess(server: seq<Path>, managed: seq<Path>, c: Config, p: Path)
    requires Sound(c) && Safe(server, managed, c) && CleanPath(p)
    ensures WithinAny(p, server) ==> WithinAny(p, c.allowed)
  {
    assert CleanRoots(server);
    WithinAnyIsPrefix(p, server);
    WithinAnyIsPrefix(p, c.allowed);
    if Under(p, server) {
      ServerStaysInScope(server, managed, c, p);
    }
  }

  /** No path lies both under a managed root and in quarantine. */
  lemma {:induction false} QuarantineIsApart(server: seq<Path>, managed: seq<Path>, c: Config, p: Path)
    requires Safe(server, managed, c)
    ensures !(Under(p, managed) && c.quarantine <= p)
  {
    forall root | root in managed && root <= p
      ensures !(c.quarantine <= p)
    {
      assert root == p[..|root|];
      assert Apart(root, c.quarantine);
    }
  }

  // ----- the running server

  /** The targets a running server resolves paths with; read under their own lock. */
  class MutableTargets {
    var allowed: seq<Path>

    constructor (roots: seq<Path>)
      ensures allowed == roots
    {
      allowed := roots;
    }

    method UpdateAllowedFileRoots(roots: seq<Path>)
      modifies this
      ensures allowed == roots
    {
      allowed := roots;
    }
  }

  /** The saved list of managed roots. */
  class ManagedFile {
    var roots: Option<seq<string>>

    constructor ()
      ensures roots == None
    {
      roots := None;
    }
  }

  function PathText(p: Path): string {
    "/" + Join(p)
  }

  function Texts(roots: seq<Path>): seq<string> {
    seq(|roots|, i requires 0 <= i < |roots| => PathText(roots[i]))
  }

  class ConfigManager {
    var config: Config
    const maximum: seq<Path>
    const targets: MutableTargets
    const file: ManagedFile
    /** The configuration the manager was started with. */
    ghost const original: Config

    ghost predicate Valid()
      reads this, targets
    {
      && Sound(original) && maximum == original.lab
      && config == original.(lab := config.lab, allowed := config.allowed)
      && Safe(config.allowed, config.lab, original)
      && targets.allowed == config.allowed
    }

    constructor (config: Config, managed: seq<Path>, targets: MutableTargets, file: ManagedFile)
      requires Sound(config) && Safe(AppendUnique(managed, config.quarantine), managed, config)
      requires targets.allowed == AppendUnique(managed, config.quarantine)
      ensures Valid() && original == config && this.targets == targets && this.file == file
      ensures this.config == config.(lab := managed, allowed := AppendUnique(managed, config.quarantine))
    {
      this.config := config.(lab := managed, allowed := AppendUnique(managed, config.quarantine));
      maximum, original := config.lab, config;
      this.targets, this.file := targets, file;
    }

    /** The new roots are checked, saved, and only then put in force; a save that fails late leaves them for the next start. */
    method UpdateManagedRoots(values: seq<string>, resolve: Resolver, fault: Fault) returns (ok: bool)
      requires Valid() && ResolvesClean(resolve)
      modifies this, targets, file
      ensures Valid()
      ensures ok ==> file.roots == Some(Texts(config.lab)) && Distinct(config.lab)
      ensures ok ==> StandsFor(config.lab, values, resolve)
      ensures ok <==> Startable(original, values, resolve) && fault.Clean?
      ensures !ok ==> config == old(config) && (fault != Fault.AfterRename ==> file.roots == old(file.roots))
    {
      var normalized := NormalizeRoots(values, Some(config.quarantine), resolve);
      if normalized.None? {
        return false;
      }
      var within := ValidateRootsWithin(normalized.value, maximum);
      if !within {
        return false;
      }
      var next := config.(lab := normalized.value, allowed := AppendUnique(normalized.value, config.quarantine));
      if fault != Fault.BeforeRename {
        file.roots := Some(Texts(normalized.value));
      }
      if fault != Fault.Clean {
        return false;
      }
      config := next;
      targets.UpdateAllowedFileRoots(next.allowed);
      return true;
    }
  }

  /** NewConfigManager: the saved roots go through the same checks as new ones, or the server does not start. */
  method NewConfigManager(config: Config, targets: MutableTargets, file: ManagedFile, resolve: Resolver) returns (r: Option<ConfigManager>)
    requires Sound(config) && ResolvesClean(resolve)
    modifies targets
    ensures r.Some? ==> fresh(r.value) && r.value.Valid() && r.value.original == config && r.value.targets == targets && r.value.file == file
    ensures r.Some? ==> StandsFor(r.value.config.lab, if file.roots.Some? then file.roots.value else Texts(config.lab), resolve)
    ensures r.None? <==> !Startable(config, if file.roots.Some? then file.roots.value else Texts(config.lab), resolve)
  {
    var values := Starting(config, file.roots);
    var normalized := NormalizeRoots(values, Some(config.quarantine), resolve);
    if normalized.None? {
      return None;
    }
    var within := ValidateRootsWithin(normalized.value, config.lab);
    if !within {
      return None;
    }
    targets.UpdateAllowedFileRoots(AppendUnique(normalized.value, config.quarantine));
    var manager := new ConfigManager(config, normalized.value, targets, file);
    return Some(manager);
  }

  /** Without a saved list the configured roots are used. */
  function Starting(config: Config, saved: Option<seq<string>>): seq<string> {
    if saved.Some? then saved.value else Texts(config.lab)
  }

  ghost predicate Startable(config: Config, values: seq<string>, resolve: Resolver) {
    && values != []
    && (forall v <- values :: Admissible(v, Some(config.quarantine), resolve))
    && (forall v <- values :: NormalizeRoot(v, resolve).Some? && Under(NormalizeRoot(v, resolve).value, config.lab))
  }

  /** A root that has not become a link, and whose text has no blanks at its ends, is read back as it was saved. */
  lemma {:induction false} SavedRootIsReadBack(root: Path, resolve: Resolver)
    requires CleanPath(root) && root != [] && Trim(PathText(root)) == PathText(root)
    requires resolve(root) == Missing || resolve(root) == Resolved(root)
    ensures NormalizeRoot(PathText(root), resolve) == Some(root)
  {
    CleanedUndoesText(root);
  }

  /** What an update saved is what the next start puts in force, as long as no root has become a link. */
  lemma {:induction false} SavedRootsAreReadBack(roots: seq<Path>, resolve: Resolver)
    requires forall root <- roots :: CleanPath(root) && root != [] && Trim(PathText(root)) == PathText(root)
    requires forall root <- roots :: resolve(root) == Missing || resolve(root) == Resolved(root)
    ensures StandsFor(roots, Texts(roots), resolve)
  {
    forall p
      ensures p in roots <==> exists v <- Texts(roots) :: NormalizeRoot(v, resolve) == Some(p)
    {
      forall i | 0 <= i < |roots|
        ensures NormalizeRoot(Texts(roots)[i], resolve) == Some(roots[i])
      {
        SavedRootIsReadBack(roots[i], resolve);
      }
      if p in roots {
        var i :| 0 <= i < |roots| && roots[i] == p;
        assert Texts(roots)[i] in Texts(roots);
      }
    }
  }

  // ----- any run

  datatype Change = Update(values: seq<string>, resolve: Resolver, fault: Fault) | Restart(resolve: Resolver)

  /**
    Updates, failed saves and restarts in any order: as long as the server is up
    its roots are safe, and its targets accept exactly those.
   */
  method Serve(config: Config, changes: seq<Change>) returns (r: Option<ConfigManager>)
    requires Sound(config) && forall change <- changes :: ResolvesClean(change.resolve)
    ensures r.Some? ==> fresh(r.value) && r.value.Valid() && r.value.original == config
  {
    var file := new ManagedFile();
    var targets := new MutableTargets(config.allowed);
    r := None;
    var i := 0;
    while i < |changes|
      invariant 0 <= i <= |changes|
      invariant fresh(file) && fresh(targets)
      invariant r.Some? ==> fresh(r.value) && r.value.Valid() && r.value.original == config && r.value.targets == targets && r.value.file == file
    {
      var change := changes[i];
      match change {
        case Update(values, resolve, fault) =>
          if r.Some? {
            var _ := r.value.UpdateManagedRoots(values, resolve, fault);
          }
        case Restart(resolve) =>
          targets := new MutableTargets(config.allowed);
          r := NewConfigManager(config, targets, file, resolve);
      }
      i := i + 1;
    }
  }
}
