/**
  The bounded readers built on the walk: Snapshot, FindLarge and Usage. Each
  is a visitor closure that accumulates into its result; each is proved to
  compute what its bounds promise about the whole tree.
 */
module FileScan {
  import opened Wrappers
  import opened Paths
  import opened Ordering
  import opened Walk

  const MAX_SNAPSHOT_DEPTH: nat := 64
  const HASH_LIMIT := 16 * 0x10_0000
  const TOTAL_LIMIT := 32 * 0x10_0000

  function Keeps(kept: Place -> bool, root: Node): seq<Place> {
    Only(PlacesFrom(root, Everywhere()), kept)
  }

  function PathsOf(places: seq<Place>): seq<Path> {
    seq(|places|, i requires 0 <= i < |places| => places[i].path)
  }

  // ----- Snapshot

  datatype Reason = Symlink | DepthLimit | NotRegular | FileLimit | TotalLimit
  datatype Hashed = Hashed(path: Path, size: nat)
  datatype Skip = Skip(path: Path, reason: Reason)
  datatype Snapshot = Snapshot(entries: seq<Hashed>, skipped: seq<Skip>, hashed: nat, truncated: bool)
  datatype Bounds = Bounds(limit: nat, maxFile: nat, maxTotal: nat)

  const NOTHING := Snapshot([], [], 0, false)

  function Look(b: Bounds, out: Snapshot, p: Place): Step<Snapshot> {
    if |out.entries| + |out.skipped| >= b.limit then
      Step(out.(truncated := true), false, true)
    else if p.node.Link? then
      Step(out.(skipped := out.skipped + [Skip(p.path, Symlink)]), false, false)
    else if p.node.Dir? then
      if p.depth >= MAX_SNAPSHOT_DEPTH then
        Step(out.(skipped := out.skipped + [Skip(p.path, DepthLimit)], truncated := true), false, false)
      else
        Step(out, true, false)
    else if p.node.Special? then
      Step(out.(skipped := out.skipped + [Skip(p.path, NotRegular)]), false, false)
    else if p.node.size > b.maxFile then
      Step(out.(skipped := out.skipped + [Skip(p.path, FileLimit)]), false, false)
    else if out.hashed + p.node.size > b.maxTotal then
      Step(out.(skipped := out.skipped + [Skip(p.path, TotalLimit)]), false, false)
    else
      Step(out.(hashed := out.hashed + p.node.size, entries := out.entries + [Hashed(p.path, p.node.size)]), false, false)
  }

  function Looking(b: Bounds): Visitor<Snapshot> {
    (out, p) => Look(b, out, p)
  }

  /** The nodes a snapshot has a line for: all but the directories it enters. */
  predicate Listed(p: Place) {
    !p.node.Dir? || p.depth >= MAX_SNAPSHOT_DEPTH
  }

  function EntryPaths(entries: seq<Hashed>): seq<Path> {
    seq(|entries|, i requires 0 <= i < |entries| => entries[i].path)
  }

  function SkipPaths(skipped: seq<Skip>): seq<Path> {
    seq(|skipped|, i requires 0 <= i < |skipped| => skipped[i].path)
  }

  /** Every path a snapshot has a line for. */
  ghost function Lines(out: Snapshot): multiset<Path> {
    multiset(EntryPaths(out.entries)) + multiset(SkipPaths(out.skipped))
  }

  function Bytes(entries: seq<Hashed>): nat {
    if entries == [] then 0 else entries[0].size + Bytes(entries[1..])
  }

  /** The line for a node says what the node is. */
  ghost predicate HashedFrom(e: Hashed, b: Bounds, places: seq<Place>) {
    e.size <= b.maxFile && exists p <- places :: p.path == e.path && p.node == File(e.size)
  }

  ghost predicate SkippedFrom(s: Skip, b: Bounds, hashed: nat, places: seq<Place>) {
    exists p <- places :: p.path == s.path && Why(s.reason, p, b, hashed)
  }

  predicate Why(reason: Reason, p: Place, b: Bounds, hashed: nat) {
    match reason
    case Symlink => p.node.Link?
    case DepthLimit => p.node.Dir? && p.depth >= MAX_SNAPSHOT_DEPTH
    case NotRegular => p.node.Special?
    case FileLimit => p.node.File? && p.node.size > b.maxFile
    case TotalLimit => p.node.File? && p.node.size <= b.maxFile && hashed + p.node.size > b.maxTotal
  }

  /** A node is met when the lines are used up, or a directory is too deep. */
  ghost predicate CutShort(places: seq<Place>, limit: nat) {
    exists i | 0 <= i < |places| ::
      |Only(places[..i], Listed)| >= limit || (places[i].node.Dir? && places[i].depth >= MAX_SNAPSHOT_DEPTH)
  }

  function Least(a: nat, b: nat): nat {
    if a < b then a else b
  }

  /** What the snapshot holds after a pass over these places. */
  ghost predicate Covers(b: Bounds, places: seq<Place>, out: Snapshot) {
    var listed := Only(places, Listed);
    var n := Least(b.limit, |listed|);
    && |out.entries| + |out.skipped| == n
    && Lines(out) == multiset(PathsOf(listed[..n]))
    && out.hashed == Bytes(out.entries) <= b.maxTotal
    && (out.truncated <==> CutShort(places, b.limit))
    && (forall e <- out.entries :: HashedFrom(e, b, places))
    && (forall s <- out.skipped :: SkippedFrom(s, b, out.hashed, places))
  }

  lemma {:induction false} OnlySnoc(places: seq<Place>, p: Place, keep: Place -> bool)
    ensures Only(places + [p], keep) == Only(places, keep) + (if keep(p) then [p] else [])
  {
    OnlyAppend(places, [p], keep);
    assert [p][1..] == [];
  }

  lemma {:induction false} FoldSnoc<S>(s: S, places: seq<Place>, p: Place, visit: Visitor<S>)
    ensures Fold(s, places + [p], visit) == visit(Fold(s, places, visit), p).state
  {
    FoldAppend(s, places, [p], visit);
    assert [p][1..] == [];
  }

  lemma {:induction false} LookAddsItsLine(b: Bounds, places: seq<Place>, p: Place, out: Snapshot)
    requires Covers(b, places, out)
    ensures var next := Look(b, out, p).state;
            var listed := Only(places + [p], Listed);
            var n := Least(b.limit, |listed|);
            |next.entries| + |next.skipped| == n && Lines(next) == multiset(PathsOf(listed[..n]))
  {
    var listed := Only(places, Listed);
    OnlySnoc(places, p, Listed);
    assert listed[..|listed|] == listed && (listed + [p])[..|listed| + 1] == listed + [p];
    if |listed| >= b.limit {
      assert (listed + (if Listed(p) then [p] else []))[..b.limit] == listed[..b.limit];
      assert Look(b, out, p).state == out.(truncated := true);
    } else {
      LookAddsOne(b, p, out);
      assert PathsOf(listed + [p]) == PathsOf(listed) + [p.path];
    }
  }

  lemma {:induction false} LookAddsOne(b: Bounds, p: Place, out: Snapshot)
    requires |out.entries| + |out.skipped| < b.limit
    ensures var next := Look(b, out, p).state;
            if Listed(p) then
              && |next.entries| + |next.skipped| == |out.entries| + |out.skipped| + 1
              && Lines(next) == Lines(out) + multiset{p.path}
            else next == out
  {
    var next := Look(b, out, p).state;
    if Listed(p) && next.skipped != out.skipped {
      assert SkipPaths(next.skipped) == SkipPaths(out.skipped) + [p.path];
    } else if Listed(p) {
      assert EntryPaths(next.entries) == EntryPaths(out.entries) + [p.path];
    }
  }

  lemma {:induction false} BytesAppend(entries: seq<Hashed>, e: Hashed)
    ensures Bytes(entries + [e]) == Bytes(entries) + e.size
  {
    if entries != [] {
      assert (entries + [e])[1..] == entries[1..] + [e];
      BytesAppend(entries[1..], e);
    }
  }

  lemma {:induction false} LookCutsShort(b: Bounds, places: seq<Place>, p: Place, out: Snapshot)
    requires Covers(b, places, out)
    ensures Look(b, out, p).state.truncated <==> CutShort(places + [p], b.limit)
  {
    CutShortSnoc(places, p, b.limit);
  }

  lemma {:induction false} CutShortSnoc(places: seq<Place>, p: Place, limit: nat)
    ensures CutShort(places + [p], limit) <==>
              CutShort(places, limit) || |Only(places, Listed)| >= limit || (p.node.Dir? && p.depth >= MAX_SNAPSHOT_DEPTH)
  {
    var more := places + [p];
    assert more[..|places|] == places && more[|places|] == p;
    forall i | 0 <= i < |places|
      ensures more[..i] == places[..i] && more[i] == places[i]
    {
    }
  }

  lemma {:induction false} LookHashesWhatIsThere(b: Bounds, places: seq<Place>, p: Place, out: Snapshot)
    requires Covers(b, places, out)
    ensures forall e <- Look(b, out, p).state.entries :: HashedFrom(e, b, places + [p])
  {
    assert p in places + [p];
    forall e | e in out.entries
      ensures HashedFrom(e, b, places + [p])
    {
      var q :| q in places && q.path == e.path && q.node == File(e.size);
      assert q in places + [p];
    }
  }

  lemma {:induction false} LookSkipsForAReason(b: Bounds, places: seq<Place>, p: Place, out: Snapshot)
    requires Covers(b, places, out)
    ensures var next := Look(b, out, p).state; forall s <- next.skipped :: SkippedFrom(s, b, next.hashed, places + [p])
  {
    var next := Look(b, out, p).state;
    assert p in places + [p];
    forall s | s in out.skipped
      ensures SkippedFrom(s, b, next.hashed, places + [p])
    {
      ReasonStays(s, b, out.hashed, next.hashed, places, p);
    }
  }

  lemma {:induction false} ReasonStays(s: Skip, b: Bounds, hashed: nat, more: nat, places: seq<Place>, p: Place)
    requires SkippedFrom(s, b, hashed, places) && hashed <= more
    ensures SkippedFrom(s, b, more, places + [p])
  {
    var q :| q in places && q.path == s.path && Why(s.reason, q, b, hashed);
    assert q in places + [p] && Why(s.reason, q, b, more);
  }

  lemma {:induction false} ReasonIsUnique(x: Reason, y: Reason, p: Place, b: Bounds, hashed: nat)
    requires Why(x, p, b, hashed) && Why(y, p, b, hashed)
    ensures x == y
  {
  }

  lemma {:induction false} LookCovers(b: Bounds, places: seq<Place>, p: Place, out: Snapshot)
    requires Covers(b, places, out)
    ensures Covers(b, places + [p], Look(b, out, p).state)
  {
    LookAddsItsLine(b, places, p, out);
    LookCutsShort(b, places, p, out);
    LookHashesWhatIsThere(b, places, p, out);
    LookSkipsForAReason(b, places, p, out);
    if p.node.File? {
      BytesAppend(out.entries, Hashed(p.path, p.node.size));
    }
  }

  lemma {:induction false} PassCovers(b: Bounds, places: seq<Place>)
    ensures Covers(b, places, Fold(NOTHING, places, Looking(b)))
    decreases |places|
  {
    if places == [] {
      assert Lines(NOTHING) == multiset{} == multiset(PathsOf([]));
    } else {
      var before, p := places[..|places| - 1], places[|places| - 1];
      assert places == before + [p];
      PassCovers(b, before);
      FoldSnoc(NOTHING, before, p, Looking(b));
      LookCovers(b, before, p, Fold(NOTHING, before, Looking(b)));
    }
  }

  /** What the walk hands back, before the lines are sorted. */
  function Collected(root: Node, b: Bounds): Snapshot {
    WalkedFrom(root, Looking(b), NOTHING)
  }

  /** Although a stop does not leave its directory, the walk gathers what one bounded pass gathers. */
  lemma {:induction false} WalkCovers(root: Node, b: Bounds)
    ensures Covers(b, PlacesFrom(root, Above(MAX_SNAPSHOT_DEPTH)), Collected(root, b))
  {
    WalkFromIsFold(root, Looking(b), Above(MAX_SNAPSHOT_DEPTH), NOTHING);
    PassCovers(b, PlacesFrom(root, Above(MAX_SNAPSHOT_DEPTH)));
  }

  predicate NotDir(p: Place) {
    !p.node.Dir?
  }

  ghost predicate WellNamed(root: Node) {
    root.Dir? ==> NamesDistinct(root.children)
  }

  lemma {:induction false} OnlyAgree(places: seq<Place>, f: Place -> bool, g: Place -> bool)
    requires forall p <- places :: f(p) == g(p)
    ensures Only(places, f) == Only(places, g)
  {
    if places != [] {
      OnlyAgree(places[1..], f, g);
    }
  }

  lemma {:induction false} OnlyStaysDistinct(places: seq<Place>, keep: Place -> bool)
    requires PathsDistinct(places)
    ensures PathsDistinct(Only(places, keep))
  {
    if places != [] {
      OnlyStaysDistinct(places[1..], keep);
      var rest := Only(places[1..], keep);
      forall q | q in rest
        ensures q.path != places[0].path
      {
        OnlyMembers(places[1..], keep, q);
        var k :| 0 <= k < |places[1..]| && places[1..][k] == q;
        assert places[k + 1] == q;
      }
      if keep(places[0]) {
        DisjointStaysDistinct([places[0]], rest);
      }
    }
  }

  lemma {:induction false} EachPathOnce(places: seq<Place>, path: Path)
    requires PathsDistinct(places)
    ensures multiset(PathsOf(places))[path] <= 1
  {
    if places != [] {
      EachPathOnce(places[1..], path);
      assert PathsOf(places) == [places[0].path] + PathsOf(places[1..]);
      assert forall k | 0 <= k < |places[1..]| :: PathsOf(places[1..])[k] == places[k + 1].path != places[0].path;
      assert places[0].path !in PathsOf(places[1..]);
    }
  }

  lemma {:induction false} RootPlacesDistinct(root: Node, enters: (nat, Node) -> bool)
    requires WellNamed(root)
    ensures PathsDistinct(PlacesFrom(root, enters))
    ensures forall p <- PlacesFrom(root, enters) :: CleanPath(p.path)
  {
    if root.Dir? {
      PlacesDistinct(root.children, [], 0, enters);
      PlacesAreClean(root.children, [], 0, enters);
    }
  }

  /** A pass that was not cut short had a line to spare for every node, and entered every directory. */
  lemma {:induction false} UncutPass(places: seq<Place>, limit: nat)
    requires !CutShort(places, limit)
    ensures |Only(places, Listed)| <= limit
    ensures forall p <- places :: p.node.Dir? ==> p.depth < MAX_SNAPSHOT_DEPTH
  {
    if places != [] {
      var before, p := places[..|places| - 1], places[|places| - 1];
      assert places == before + [p];
      OnlySnoc(before, p, Listed);
      assert |Only(places[..|places| - 1], Listed)| < limit;
    }
  }

  /** A snapshot that does not say it is truncated has exactly one line for every node that is not a directory. */
  lemma {:induction false} SnapshotIsComplete(root: Node, b: Bounds)
    requires WellNamed(root) && !Collected(root, b).truncated
    ensures Lines(Collected(root, b)) == multiset(PathsOf(Keeps(NotDir, root)))
    ensures forall path :: Lines(Collected(root, b))[path] <= 1
  {
    var enters := Above(MAX_SNAPSHOT_DEPTH);
    var places := PlacesFrom(root, enters);
    WalkCovers(root, b);
    UncutPass(places, b.limit);
    if root.Dir? {
      NothingLeftOut(root.children, [], 0, enters);
    }
    OnlyAgree(places, Listed, NotDir);
    var listed := Only(places, Listed);
    assert listed[..|listed|] == listed;
    RootPlacesDistinct(root, Everywhere());
    OnlyStaysDistinct(places, NotDir);
    forall path
      ensures Lines(Collected(root, b))[path] <= 1
    {
      EachPathOnce(listed, path);
    }
  }

  // ----- the lines in order

  predicate HashedBefore(x: Hashed, y: Hashed) {
    Before(Text(x.path), Text(y.path))
  }

  predicate SkipBefore(x: Skip, y: Skip) {
    Before(Text(x.path), Text(y.path))
  }

  function Arranged(out: Snapshot): Snapshot {
    out.(entries := Sorted(out.entries, HashedBefore), skipped := Sorted(out.skipped, SkipBefore))
  }

  lemma {:induction false} SortedEntries(entries: seq<Hashed>)
    ensures multiset(EntryPaths(Sorted(entries, HashedBefore))) == multiset(EntryPaths(entries))
    ensures Bytes(Sorted(entries, HashedBefore)) == Bytes(entries)
  {
    if entries != [] {
      SortedEntries(entries[1..]);
      InsertedEntry(entries[0], Sorted(entries[1..], HashedBefore));
      assert EntryPaths(entries) == [entries[0].path] + EntryPaths(entries[1..]);
    }
  }

  lemma {:induction false} InsertedEntry(x: Hashed, s: seq<Hashed>)
    ensures multiset(EntryPaths(Inserted(x, s, HashedBefore))) == multiset{x.path} + multiset(EntryPaths(s))
    ensures Bytes(Inserted(x, s, HashedBefore)) == x.size + Bytes(s)
  {
    if s == [] || HashedBefore(x, s[0]) {
      assert EntryPaths([x] + s) == [x.path] + EntryPaths(s);
      assert ([x] + s)[1..] == s;
    } else {
      InsertedEntry(x, s[1..]);
      var t := Inserted(x, s[1..], HashedBefore);
      assert EntryPaths([s[0]] + t) == [s[0].path] + EntryPaths(t);
      assert EntryPaths(s) == [s[0].path] + EntryPaths(s[1..]);
      assert ([s[0]] + t)[1..] == t;
    }
  }

  lemma {:induction false} SortedSkips(skipped: seq<Skip>)
    ensures multiset(SkipPaths(Sorted(skipped, SkipBefore))) == multiset(SkipPaths(skipped))
  {
    if skipped != [] {
      SortedSkips(skipped[1..]);
      InsertedSkip(skipped[0], Sorted(skipped[1..], SkipBefore));
      assert SkipPaths(skipped) == [skipped[0].path] + SkipPaths(skipped[1..]);
    }
  }

  lemma {:induction false} InsertedSkip(x: Skip, s: seq<Skip>)
    ensures multiset(SkipPaths(Inserted(x, s, SkipBefore))) == multiset{x.path} + multiset(SkipPaths(s))
  {
    if s == [] || SkipBefore(x, s[0]) {
      assert SkipPaths([x] + s) == [x.path] + SkipPaths(s);
    } else {
      InsertedSkip(x, s[1..]);
      var t := Inserted(x, s[1..], SkipBefore);
      assert SkipPaths([s[0]] + t) == [s[0].path] + SkipPaths(t);
      assert SkipPaths(s) == [s[0].path] + SkipPaths(s[1..]);
    }
  }

  lemma {:induction false} ArrangedCovers(b: Bounds, places: seq<Place>, out: Snapshot)
    requires Covers(b, places, out)
    ensures Covers(b, places, Arranged(out)) && Lines(Arranged(out)) == Lines(out)
  {
    SortedEntries(out.entries);
    SortedSkips(out.skipped);
    SortedHolds(out.entries, HashedBefore);
    SortedHolds(out.skipped, SkipBefore);
    assert |Sorted(out.entries, HashedBefore)| == |multiset(out.entries)| == |out.entries|;
    assert |Sorted(out.skipped, SkipBefore)| == |multiset(out.skipped)| == |out.skipped|;
  }

  lemma {:induction false} EntriesInOrder(entries: seq<Hashed>)
    requires Ordered(entries, HashedBefore)
    ensures forall i, j | 0 <= i < j < |entries| :: !Before(Text(entries[j].path), Text(entries[i].path))
  {
    forall i, j | 0 <= i < j < |entries|
      ensures !Before(Text(entries[j].path), Text(entries[i].path))
    {
      OrderedAt(entries, HashedBefore, i, j);
    }
  }

  lemma {:induction false} SkipsInOrder(skipped: seq<Skip>)
    requires Ordered(skipped, SkipBefore)
    ensures forall i, j | 0 <= i < j < |skipped| :: !Before(Text(skipped[j].path), Text(skipped[i].path))
  {
    forall i, j | 0 <= i < j < |skipped|
      ensures !Before(Text(skipped[j].path), Text(skipped[i].path))
    {
      OrderedAt(skipped, SkipBefore, i, j);
    }
  }

  /** The lines come out in path order, and no other order would do: two lines never have the same path. */
  lemma {:induction false} LinesInOrder(root: Node, b: Bounds, out: Snapshot)
    requires WellNamed(root) && out == Collected(root, b)
    ensures Ordered(Arranged(out).entries, HashedBefore) && Ordered(Arranged(out).skipped, SkipBefore)
    ensures Linear(HashedBefore, set e | e in out.entries) && Linear(SkipBefore, set s | s in out.skipped)
    ensures var entries := Arranged(out).entries;
            forall i, j | 0 <= i < j < |entries| :: !Before(Text(entries[j].path), Text(entries[i].path))
    ensures var skipped := Arranged(out).skipped;
            forall i, j | 0 <= i < j < |skipped| :: !Before(Text(skipped[j].path), Text(skipped[i].path))
  {
    var places := PlacesFrom(root, Above(MAX_SNAPSHOT_DEPTH));
    WalkCovers(root, b);
    RootPlacesDistinct(root, Above(MAX_SNAPSHOT_DEPTH));
    EntriesAreLinear(b, places, out);
    SkipsAreLinear(b, places, out);
    LinearIsRanking(HashedBefore, set e | e in out.entries);
    LinearIsRanking(SkipBefore, set s | s in out.skipped);
    SortedIsOrdered(out.entries, HashedBefore, set e | e in out.entries);
    SortedIsOrdered(out.skipped, SkipBefore, set s | s in out.skipped);
    EntriesInOrder(Arranged(out).entries);
    SkipsInOrder(Arranged(out).skipped);
  }

  lemma {:induction false} OnePlacePerPath(places: seq<Place>, p: Place, q: Place)
    requires PathsDistinct(places) && p in places && q in places && p.path == q.path
    ensures p == q
  {
    var i :| 0 <= i < |places| && places[i] == p;
    var j :| 0 <= j < |places| && places[j] == q;
    assert i == j;
  }

  lemma {:induction false} EntriesAreLinear(b: Bounds, places: seq<Place>, out: Snapshot)
    requires PathsDistinct(places) && (forall p <- places :: CleanPath(p.path)) && Covers(b, places, out)
    ensures Linear(HashedBefore, set e | e in out.entries)
  {
    forall x, y | x in out.entries && y in out.entries
      ensures (x == y || HashedBefore(x, y) || HashedBefore(y, x)) && !(HashedBefore(x, y) && HashedBefore(y, x))
    {
      var p :| p in places && p.path == x.path && p.node == File(x.size);
      var q :| q in places && q.path == y.path && q.node == File(y.size);
      PlacesCompare(places, p, q);
    }
    forall x, y, z | x in out.entries && y in out.entries && z in out.entries && HashedBefore(x, y) && HashedBefore(y, z)
      ensures HashedBefore(x, z)
    {
      BeforeIsTransitive(Text(x.path), Text(y.path), Text(z.path));
    }
  }

  lemma {:induction false} SkipsAreLinear(b: Bounds, places: seq<Place>, out: Snapshot)
    requires PathsDistinct(places) && (forall p <- places :: CleanPath(p.path)) && Covers(b, places, out)
    ensures Linear(SkipBefore, set s | s in out.skipped)
  {
    forall x, y | x in out.skipped && y in out.skipped
      ensures (x == y || SkipBefore(x, y) || SkipBefore(y, x)) && !(SkipBefore(x, y) && SkipBefore(y, x))
    {
      var p :| p in places && p.path == x.path && Why(x.reason, p, b, out.hashed);
      var q :| q in places && q.path == y.path && Why(y.reason, q, b, out.hashed);
      PlacesCompare(places, p, q);
      if p == q {
        ReasonIsUnique(x.reason, y.reason, p, b, out.hashed);
      }
    }
    forall x, y, z | x in out.skipped && y in out.skipped && z in out.skipped && SkipBefore(x, y) && SkipBefore(y, z)
      ensures SkipBefore(x, z)
    {
      BeforeIsTransitive(Text(x.path), Text(y.path), Text(z.path));
    }
  }

  lemma {:induction false} PlacesCompare(places: seq<Place>, p: Place, q: Place)
    requires PathsDistinct(places) && (forall p <- places :: CleanPath(p.path)) && p in places && q in places
    ensures p == q || Before(Text(p.path), Text(q.path)) || Before(Text(q.path), Text(p.path))
    ensures !(Before(Text(p.path), Text(q.path)) && Before(Text(q.path), Text(p.path)))
  {
    BeforeIsTotal(Text(p.path), Text(q.path));
    BeforeIsAsymmetric(Text(p.path), Text(q.path));
    if Text(p.path) == Text(q.path) {
      TextIsInjective(p.path, q.path);
      OnePlacePerPath(places, p, q);
    }
  }

  function BoundsFor(limit: int, maxFile: int, maxTotal: int): Bounds {
    Bounds(
      if limit <= 0 then 200 else limit,
      if maxFile <= 0 then 4 * 0x10_0000 else maxFile,
      if maxTotal <= 0 then TOTAL_LIMIT else maxTotal)
  }

  /** Reader.Snapshot on a path that is not a symlink; those are refused when the path is opened. */
  method TakeSnapshot(root: Node, limit: int, maxFile: int, maxTotal: int) returns (r: Result<Snapshot, string>)
    requires !root.Link?
    ensures r.Err? <==> limit > 500 || maxFile > HASH_LIMIT || maxTotal > TOTAL_LIMIT
    ensures r.Ok? ==>
              var b := BoundsFor(limit, maxFile, maxTotal);
              && Covers(b, PlacesFrom(root, Above(MAX_SNAPSHOT_DEPTH)), r.value) && r.value == Arranged(Collected(root, b))
              && b.limit == (if limit > 0 then limit else 200)
              && b.maxFile == (if maxFile > 0 then maxFile else 4_194_304)
              && b.maxTotal == (if maxTotal > 0 then maxTotal else 33_554_432)
  {
    if limit > 500 {
      return Err("limit must not exceed 500");
    }
    if maxFile > HASH_LIMIT {
      return Err("max_file_bytes is too large");
    }
    if maxTotal > TOTAL_LIMIT {
      return Err("max_total_bytes is too large");
    }
    var b := BoundsFor(limit, maxFile, maxTotal);
    var out := WalkFrom(root, Looking(b), NOTHING);
    WalkCovers(root, b);
    ArrangedCovers(b, PlacesFrom(root, Above(MAX_SNAPSHOT_DEPTH)), out);
    return Ok(Arranged(out));
  }

  // ----- FindLarge

  datatype Large = Large(path: Path, size: nat)
  datatype LargeFiles = LargeFiles(files: seq<Large>, truncated: bool)

  predicate IsLarge(p: Place, min: nat) {
    p.node.File? && p.node.size >= min
  }

  function Find(min: nat, maxDepth: nat, found: seq<Large>, p: Place): Step<seq<Large>> {
    if p.node.Link? || p.depth > maxDepth then Step(found, false, false)
    else if p.node.Dir? then Step(found, p.depth < maxDepth, false)
    else if IsLarge(p, min) then Step(found + [Large(p.path, p.node.size)], false, false)
    else Step(found, false, false)
  }

  function Finding(min: nat, maxDepth: nat): Visitor<seq<Large>> {
    (found, p) => Find(min, maxDepth, found, p)
  }

  /** The regular files of the whole tree down to a depth, of at least a size. */
  function Wanted(root: Node, min: nat, maxDepth: nat): seq<Large> {
    AsLarge(PlacesFrom(root, Everywhere()), min, maxDepth)
  }

  function AsLarge(places: seq<Place>, min: nat, maxDepth: nat): seq<Large> {
    if places == [] then []
    else
      var p := places[0];
      (if p.depth <= maxDepth && p.node.File? && p.node.size >= min then [Large(p.path, p.node.size)] else [])
      + AsLarge(places[1..], min, maxDepth)
  }

  /** Exactly which files are wanted: the regular files of the tree that are large enough and not too deep. */
  lemma {:induction false} WantedIff(root: Node, min: nat, maxDepth: nat, a: Large)
    ensures a in Wanted(root, min, maxDepth) <==>
              a.size >= min && exists p <- PlacesFrom(root, Everywhere()) :: p.path == a.path && p.node == File(a.size) && p.depth <= maxDepth
  {
    AsLargeIff(PlacesFrom(root, Everywhere()), min, maxDepth, a);
  }

  lemma {:induction false} AsLargeIff(places: seq<Place>, min: nat, maxDepth: nat, a: Large)
    ensures a in AsLarge(places, min, maxDepth) <==>
              a.size >= min && exists p <- places :: p.path == a.path && p.node == File(a.size) && p.depth <= maxDepth
  {
    if places != [] {
      AsLargeIff(places[1..], min, maxDepth, a);
      assert places == [places[0]] + places[1..];
    }
  }

  /** Larger files come first, equal ones in path order. */
  predicate Outranks(a: Large, b: Large) {
    if a.size == b.size then Before(Text(a.path), Text(b.path)) else a.size > b.size
  }

  lemma {:induction false} FindGathers(places: seq<Place>, min: nat, maxDepth: nat, found: seq<Large>)
    ensures Fold(found, places, Finding(min, maxDepth)) == found + AsLarge(places, min, maxDepth)
    decreases |places|
  {
    if places != [] {
      FindGathers(places[1..], min, maxDepth, Find(min, maxDepth, found, places[0]).state);
    }
  }

  lemma {:induction false} DeeperIsNotWanted(places: seq<Place>, min: nat, maxDepth: nat)
    ensures AsLarge(Only(places, Within(maxDepth)), min, maxDepth) == AsLarge(places, min, maxDepth)
  {
    if places != [] {
      DeeperIsNotWanted(places[1..], min, maxDepth);
      var rest := Only(places[1..], Within(maxDepth));
      assert ([places[0]] + rest)[1..] == rest;
      assert Only(places, Within(maxDepth)) == if places[0].depth <= maxDepth then [places[0]] + rest else rest;
    }
  }

  /** Not entering the directories at the depth bound loses none of the wanted files. */
  lemma {:induction false} FindIsWanted(root: Node, min: nat, maxDepth: nat)
    requires maxDepth > 0
    ensures WalkedFrom(root, Finding(min, maxDepth), []) == Wanted(root, min, maxDepth)
  {
    WalkFromIsFold(root, Finding(min, maxDepth), Above(maxDepth), []);
    FindGathers(PlacesFrom(root, Above(maxDepth)), min, maxDepth, []);
    ShallowPlacesFrom(root, maxDepth);
    DeeperIsNotWanted(PlacesFrom(root, Everywhere()), min, maxDepth);
  }

  lemma {:induction false} OutranksIsLinear(all: set<Large>)
    requires forall a <- all :: CleanPath(a.path)
    ensures Linear(Outranks, all)
  {
    forall a, b | a in all && b in all
      ensures (a == b || Outranks(a, b) || Outranks(b, a)) && !(Outranks(a, b) && Outranks(b, a))
    {
      BeforeIsTotal(Text(a.path), Text(b.path));
      BeforeIsAsymmetric(Text(a.path), Text(b.path));
      if Text(a.path) == Text(b.path) {
        TextIsInjective(a.path, b.path);
      }
    }
    forall a, b, c | a in all && b in all && c in all && Outranks(a, b) && Outranks(b, c)
      ensures Outranks(a, c)
    {
      if a.size == b.size == c.size {
        BeforeIsTransitive(Text(a.path), Text(b.path), Text(c.path));
      }
    }
  }

  lemma {:induction false} WantedIsClean(places: seq<Place>, min: nat, maxDepth: nat)
    requires forall p <- places :: CleanPath(p.path)
    ensures forall a <- AsLarge(places, min, maxDepth) :: CleanPath(a.path)
  {
    if places != [] {
      WantedIsClean(places[1..], min, maxDepth);
    }
  }

  method FindLarge(root: Node, min: int, maxDepth: int, limit: int) returns (r: Result<LargeFiles, string>)
    requires !root.Link?
    ensures r.Err? <==> min < 0 || maxDepth > 16 || limit > 200
    ensures r.Ok? ==>
              var wanted := Wanted(root, min, if maxDepth <= 0 then 4 else maxDepth);
              var n := if limit <= 0 then 50 else limit;
              var ranked := Sorted(wanted, Outranks);
              r.value.files == ranked[..Least(n, |ranked|)] && (r.value.truncated <==> |wanted| > n)
  {
    if min < 0 {
      return Err("minimum_bytes must not be negative");
    }
    var d := if maxDepth <= 0 then 4 else maxDepth;
    if d > 16 {
      return Err("max_depth must not exceed 16");
    }
    var n := if limit <= 0 then 50 else limit;
    if n > 200 {
      return Err("limit must not exceed 200");
    }
    var found := WalkFrom(root, Finding(min, d), []);
    FindIsWanted(root, min, d);
    ghost var wanted := Wanted(root, min, d);
    found := Sorted(found, Outranks);
    SortedHolds(wanted, Outranks);
    assert |found| == |multiset(found)| == |multiset(wanted)| == |wanted|;
    var truncated := |found| > n;
    if truncated {
      found := found[..n];
    }
    return Ok(LargeFiles(found, truncated));
  }

  lemma {:induction false} RankedBySize(arranged: seq<Large>)
    requires Ordered(arranged, Outranks)
    ensures forall i, j | 0 <= i < j < |arranged| ::
              || arranged[j].size < arranged[i].size
              || (arranged[j].size == arranged[i].size && !Before(Text(arranged[j].path), Text(arranged[i].path)))
  {
    forall i, j | 0 <= i < j < |arranged|
      ensures arranged[j].size < arranged[i].size || (arranged[j].size == arranged[i].size && !Before(Text(arranged[j].path), Text(arranged[i].path)))
    {
      OrderedAt(arranged, Outranks, i, j);
    }
  }

  /**
    The ranking leaves an unstable sort no choice, and no wanted file that is
    left out outranks one that is kept.
   */
  lemma {:induction false} LargestAreKept(root: Node, min: nat, maxDepth: nat, n: nat, arranged: seq<Large>)
    requires WellNamed(root)
    requires multiset(arranged) == multiset(Wanted(root, min, maxDepth)) && Ordered(arranged, Outranks)
    ensures arranged == Sorted(Wanted(root, min, maxDepth), Outranks)
    ensures forall i, j | 0 <= i < j < |arranged| ::
              || arranged[j].size < arranged[i].size
              || (arranged[j].size == arranged[i].size && !Before(Text(arranged[j].path), Text(arranged[i].path)))
    ensures n <= |arranged| ==> forall kept <- arranged[..n], left <- arranged[n..] :: !Outranks(left, kept)
  {
    RankedBySize(arranged);
    var wanted := Wanted(root, min, maxDepth);
    RootPlacesDistinct(root, Everywhere());
    WantedIsClean(PlacesFrom(root, Everywhere()), min, maxDepth);
    var all := set a | a in wanted;
    OutranksIsLinear(all);
    LinearIsRanking(Outranks, all);
    SortedIsOrdered(wanted, Outranks, all);
    SortedHolds(wanted, Outranks);
    OneOrderedArrangement(Sorted(wanted, Outranks), arranged, Outranks, all);
    if n <= |arranged| {
      OrderedSplits(arranged, Outranks, n);
    }
  }

  lemma {:induction false} OrderedSplits<T>(s: seq<T>, less: Order<T>, n: nat)
    requires Ordered(s, less) && n <= |s|
    ensures forall x <- s[..n], y <- s[n..] :: !less(y, x)
  {
    if n > 0 {
      OrderedSplits(s[1..], less, n - 1);
      assert s[1..][n - 1..] == s[n..];
      assert s[..n] == [s[0]] + s[1..][..n - 1];
      assert forall y <- s[n..] :: y in s[1..];
    }
  }

  // ----- Usage

  datatype Usage = Usage(files: nat, directories: nat, bytes: nat, skipped: nat, truncated: bool, visited: nat)

  const UNUSED := Usage(0, 0, 0, 0, false, 0)

  function Count(maxDepth: nat, maxEntries: nat, out: Usage, p: Place): Step<Usage> {
    if p.node.Link? then Step(out.(skipped := out.skipped + 1), false, false)
    else if p.depth > maxDepth then Step(out.(truncated := true), false, false)
    else if out.visited >= maxEntries then Step(out.(truncated := true), false, true)
    else
      var seen := out.(visited := out.visited + 1);
      if p.node.Dir? then Step(seen.(directories := seen.directories + 1), p.depth < maxDepth, false)
      else if p.node.File? then Step(seen.(files := seen.files + 1, bytes := seen.bytes + p.node.size), false, false)
      else Step(seen.(skipped := seen.skipped + 1), false, false)
  }

  function Counting(maxDepth: nat, maxEntries: nat): Visitor<Usage> {
    (out, p) => Count(maxDepth, maxEntries, out, p)
  }

  predicate IsDir(p: Place) { p.node.Dir? }
  predicate IsFile(p: Place) { p.node.File? }
  predicate IsOther(p: Place) { p.node.Link? || p.node.Special? }
  predicate IsCounted(p: Place) { !p.node.Link? }

  function TotalSize(places: seq<Place>): nat {
    if places == [] then 0 else (if places[0].node.File? then places[0].node.size else 0) + TotalSize(places[1..])
  }

  /** What there is, counted kind by kind. */
  ghost function Tally(places: seq<Place>): Usage {
    Usage(|Only(places, IsFile)|, |Only(places, IsDir)|, TotalSize(places), |Only(places, IsOther)|, false, |Only(places, IsCounted)|)
  }

  ghost function Plus(a: Usage, b: Usage): Usage {
    Usage(a.files + b.files, a.directories + b.directories, a.bytes + b.bytes, a.skipped + b.skipped, a.truncated || b.truncated, a.visited + b.visited)
  }

  function Truncated(): Usage -> bool {
    (out: Usage) => out.truncated
  }

  lemma {:induction false} CountTallies(places: seq<Place>, maxDepth: nat, maxEntries: nat, out: Usage)
    requires !out.truncated && out.visited <= maxEntries && forall p <- places :: p.depth <= maxDepth
    ensures var folded := Fold(out, places, Counting(maxDepth, maxEntries));
            if out.visited + |Only(places, IsCounted)| <= maxEntries then folded == Plus(out, Tally(places)) else folded.truncated
    decreases |places|
  {
    if places != [] {
      var next := Count(maxDepth, maxEntries, out, places[0]).state;
      if next.truncated {
        FoldKeeps(next, places[1..], Counting(maxDepth, maxEntries), Truncated());
      } else {
        CountTallies(places[1..], maxDepth, maxEntries, next);
      }
    }
  }

  lemma {:induction false} OnlyWithin(places: seq<Place>, max: nat)
    ensures forall p <- Only(places, Within(max)) :: p.depth <= max
  {
    forall p | p in Only(places, Within(max))
      ensures p.depth <= max
    {
      OnlyMembers(places, Within(max), p);
    }
  }

  function Bounded(maxEntries: nat): Usage -> bool {
    (out: Usage) => out.files + out.directories <= out.visited <= maxEntries
  }

  function Counted(root: Node, maxDepth: nat, maxEntries: nat): Usage {
    WalkedFrom(root, Counting(maxDepth, maxEntries), UNUSED)
  }

  lemma {:induction false} UsageIsTally(root: Node, d: nat, n: nat)
    requires root.Dir? && d > 0
    ensures var shallow := Keeps(Within(d), root);
            if |Only(shallow, IsCounted)| <= n then Counted(root, d, n) == Tally(shallow) else Counted(root, d, n).truncated
  {
    var shallow := Keeps(Within(d), root);
    UnmarkedWalkIsFold(root.children, [], 0, Counting(d, n), Above(d), UNUSED, Truncated());
    ShallowPlacesFrom(root, d);
    OnlyWithin(PlacesFrom(root, Everywhere()), d);
    CountTallies(shallow, d, n, UNUSED);
    assert Plus(UNUSED, Tally(shallow)) == Tally(shallow);
  }

  lemma {:induction false} UsageIsBounded(root: Node, d: nat, n: nat)
    requires root.Dir?
    ensures Counted(root, d, n).files + Counted(root, d, n).directories <= n
  {
    WalkKeeps(root.children, [], 0, Counting(d, n), UNUSED, Bounded(n));
    assert Bounded(n)(Counted(root, d, n));
  }

  /** Reader.Usage: exact when it does not say it is truncated, and it says so only for too many entries, never for depth. */
  method MeasureUsage(root: Node, maxDepth: int, maxEntries: int) returns (r: Result<Usage, string>)
    requires !root.Link?
    ensures r.Err? <==> maxDepth > 16 || maxEntries > 20000 || !root.Dir?
    ensures r.Ok? ==>
              var d := if maxDepth <= 0 then 4 else maxDepth;
              var n := if maxEntries <= 0 then 5000 else maxEntries;
              var shallow := Keeps(Within(d), root);
              && (r.value.truncated <==> |Only(shallow, IsCounted)| > n)
              && (!r.value.truncated ==> r.value == Tally(shallow))
              && r.value.files + r.value.directories <= n
  {
    var d := if maxDepth <= 0 then 4 else maxDepth;
    if d > 16 {
      return Err("max_depth must not exceed 16");
    }
    var n := if maxEntries <= 0 then 5000 else maxEntries;
    if n > 20000 {
      return Err("max_entries must not exceed 20000");
    }
    if !root.Dir? {
      return Err("path is not a directory");
    }
    var out := WalkFrom(root, Counting(d, n), UNUSED);
    UsageIsTally(root, d, n);
    UsageIsBounded(root, d, n);
    return Ok(out);
  }

  // ----- rootFor

  /** The allowlisted root a path is opened under: the deepest of those that contain it. */
  method RootFor(roots: seq<Path>, path: Path) returns (r: Option<nat>)
    requires CleanPath(path) && forall root <- roots :: CleanPath(root)
    ensures r.None? <==> !WithinAny(path, roots)
    ensures r.Some? ==> r.value < |roots| && roots[r.value] <= path && forall root <- roots :: root <= path ==> root <= roots[r.value]
  {
    r := None;
    ghost var best: Path := [];
    var i := 0;
    while i < |roots|
      invariant 0 <= i <= |roots|
      invariant r.Some? ==> r.value < i && best == roots[r.value] && best <= path
      invariant forall j | 0 <= j < i && roots[j] <= path :: r.Some? && roots[j] <= best
    {
      InsideIsPrefix(roots[i], path);
      if Inside(roots[i], path) {
        if r.None? {
          best, r := roots[i], Some(i);
        } else {
          RootsOfOnePathAreNested(best, roots[i], path);
          if |Join(roots[i])| > |Join(roots[r.value])| {
            best, r := roots[i], Some(i);
          }
        }
      }
      i := i + 1;
    }
    WithinAnyIsPrefix(path, roots);
    assert r.Some? ==> roots[r.value] in roots && roots[r.value] <= path;
  }
}
