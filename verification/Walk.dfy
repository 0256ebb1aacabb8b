/**
  The bounded tree walk.

  A visitor may end the walk of one directory, but the request does not reach
  the directories above it: they go on with their next entry. The walk is
  proved equal to a plain pass over the tree in preorder for every visitor
  that, once it has asked to stop, asks again and changes nothing.
 */
module Walk {
  import opened Paths

  datatype Node = Dir(children: seq<Entry>) | File(size: nat) | Link | Special

  /** One name in a directory; the entries of a directory are in name order. */
  datatype Entry = Entry(name: string, node: Node)

  datatype Step<S> = Step(state: S, descend: bool, stop: bool)

  /** The callback: the accumulated state, then where it is and what it sees. */
  type Visitor<!S> = (S, Place) -> Step<S>

  datatype Place = Place(path: Path, depth: nat, node: Node)

  // ----- the walk as it is written

  /** walkDirectory, as a function of the accumulated state. */
  function Walked<S>(kids: seq<Entry>, prefix: Path, depth: nat, visit: Visitor<S>, s: S): S
    decreases kids
  {
    if kids == [] then s
    else
      var place := Place(prefix + [kids[0].name], depth + 1, kids[0].node);
      var v := visit(s, place);
      if v.stop then v.state
      else
        var inner := if kids[0].node.Dir? && v.descend then Walked(kids[0].node.children, place.path, depth + 1, visit, v.state) else v.state;
        Walked(kids[1..], prefix, depth, visit, inner)
  }

  method WalkDirectory<S>(kids: seq<Entry>, prefix: Path, depth: nat, visit: Visitor<S>, s: S) returns (r: S)
    ensures r == Walked(kids, prefix, depth, visit, s)
    decreases kids
  {
    r := s;
    var i := 0;
    while i < |kids|
      invariant 0 <= i <= |kids|
      invariant Walked(kids, prefix, depth, visit, s) == Walked(kids[i..], prefix, depth, visit, r)
    {
      var entry := kids[i];
      var place := Place(prefix + [entry.name], depth + 1, entry.node);
      var v := visit(r, place);
      assert kids[i..][0] == entry && kids[i..][1..] == kids[i + 1..];
      r := v.state;
      if v.stop {
        return;
      }
      if entry.node.Dir? && v.descend {
        assert entry in kids;
        r := WalkDirectory(entry.node.children, place.path, depth + 1, visit, r);
      }
      i := i + 1;
    }
  }

  /** walk: a directory is walked, anything else is visited itself. */
  method WalkFrom<S>(root: Node, visit: Visitor<S>, s: S) returns (r: S)
    ensures r == WalkedFrom(root, visit, s)
  {
    if root.Dir? {
      r := WalkDirectory(root.children, [], 0, visit, s);
    } else {
      r := visit(s, Place([], 0, root)).state;
    }
  }

  function WalkedFrom<S>(root: Node, visit: Visitor<S>, s: S): S {
    if root.Dir? then Walked(root.children, [], 0, visit, s) else visit(s, Place([], 0, root)).state
  }

  // ----- the plain pass

  /** The nodes below a directory in preorder, entering the directories that enters picks. */
  function Places(kids: seq<Entry>, prefix: Path, depth: nat, enters: (nat, Node) -> bool): seq<Place>
    decreases kids
  {
    if kids == [] then []
    else
      var place := Place(prefix + [kids[0].name], depth + 1, kids[0].node);
      [place]
      + (if kids[0].node.Dir? && enters(depth + 1, kids[0].node) then Places(kids[0].node.children, place.path, depth + 1, enters) else [])
      + Places(kids[1..], prefix, depth, enters)
  }

  function PlacesFrom(root: Node, enters: (nat, Node) -> bool): seq<Place> {
    if root.Dir? then Places(root.children, [], 0, enters) else [Place([], 0, root)]
  }

  function Fold<S>(s: S, places: seq<Place>, visit: Visitor<S>): S
    decreases |places|
  {
    if places == [] then s else Fold(visit(s, places[0]).state, places[1..], visit)
  }

  /** Which directories are entered depends on the directory alone. */
  ghost predicate Descends<S(!new)>(visit: Visitor<S>, enters: (nat, Node) -> bool) {
    forall s: S, p: Place :: p.node.Dir? && !visit(s, p).stop ==> (visit(s, p).descend <==> enters(p.depth, p.node))
  }

  /** A visitor that has stopped stays as it is. */
  ghost predicate Absorbing<S(!new)>(visit: Visitor<S>) {
    forall s: S, p: Place, q: Place :: visit(s, p).stop ==> visit(visit(s, p).state, q).stop && visit(visit(s, p).state, q).state == visit(s, p).state
  }

  lemma {:induction false} FoldAppend<S>(s: S, a: seq<Place>, b: seq<Place>, visit: Visitor<S>)
    ensures Fold(s, a + b, visit) == Fold(Fold(s, a, visit), b, visit)
    decreases |a|
  {
    if a == [] {
      assert a + b == b;
    } else {
      assert (a + b)[1..] == a[1..] + b;
      FoldAppend(visit(s, a[0]).state, a[1..], b, visit);
    }
  }

  lemma {:induction false} FoldAbsorbed<S(!new)>(s: S, p: Place, rest: seq<Place>, visit: Visitor<S>)
    requires Absorbing(visit) && visit(s, p).stop
    ensures Fold(visit(s, p).state, rest, visit) == visit(s, p).state
    decreases |rest|
  {
    if rest != [] {
      var t := visit(s, p).state;
      assert visit(t, rest[0]).stop && visit(t, rest[0]).state == t;
      FoldAbsorbed(s, p, rest[1..], visit);
    }
  }

  /** The walk whose stop does not propagate computes what one pass over the whole tree computes. */
  lemma {:induction false} WalkIsFold<S(!new)>(kids: seq<Entry>, prefix: Path, depth: nat, visit: Visitor<S>, enters: (nat, Node) -> bool, s: S)
    requires Absorbing(visit) && Descends(visit, enters)
    ensures Walked(kids, prefix, depth, visit, s) == Fold(s, Places(kids, prefix, depth, enters), visit)
    decreases kids
  {
    if kids != [] {
      var place := Place(prefix + [kids[0].name], depth + 1, kids[0].node);
      var v := visit(s, place);
      var sub := if kids[0].node.Dir? && enters(depth + 1, kids[0].node) then Places(kids[0].node.children, place.path, depth + 1, enters) else [];
      var rest := Places(kids[1..], prefix, depth, enters);
      assert Places(kids, prefix, depth, enters) == [place] + sub + rest;
      FoldThree(s, place, sub, rest, visit);
      if v.stop {
        FoldAbsorbed(s, place, sub, visit);
        FoldAbsorbed(s, place, rest, visit);
      } else {
        if kids[0].node.Dir? && v.descend {
          WalkIsFold(kids[0].node.children, place.path, depth + 1, visit, enters, v.state);
        }
        WalkIsFold(kids[1..], prefix, depth, visit, enters, Fold(v.state, sub, visit));
      }
    }
  }

  lemma {:induction false} FoldThree<S>(s: S, p: Place, a: seq<Place>, b: seq<Place>, visit: Visitor<S>)
    ensures Fold(s, [p] + a + b, visit) == Fold(Fold(visit(s, p).state, a, visit), b, visit)
  {
    assert ([p] + a + b)[1..] == a + b;
    FoldAppend(visit(s, p).state, a, b, visit);
  }

  lemma {:induction false} WalkFromIsFold<S(!new)>(root: Node, visit: Visitor<S>, enters: (nat, Node) -> bool, s: S)
    requires Absorbing(visit) && Descends(visit, enters)
    ensures WalkedFrom(root, visit, s) == Fold(s, PlacesFrom(root, enters), visit)
  {
    if root.Dir? {
      WalkIsFold(root.children, [], 0, visit, enters, s);
    } else {
      var one := [Place([], 0, root)];
      assert Fold(visit(s, one[0]).state, one[1..], visit) == visit(s, one[0]).state;
    }
  }

  // ----- a visitor whose stop leaves a mark

  ghost predicate Stable<S(!new)>(visit: Visitor<S>, holds: S -> bool) {
    forall s: S, p: Place :: holds(s) ==> holds(visit(s, p).state)
  }

  /** Stopping sets a mark, and no visit removes it. */
  ghost predicate Marks<S(!new)>(visit: Visitor<S>, marked: S -> bool) {
    Stable(visit, marked) && forall s: S, p: Place :: visit(s, p).stop ==> marked(visit(s, p).state)
  }

  lemma {:induction false} FoldKeeps<S(!new)>(s: S, places: seq<Place>, visit: Visitor<S>, holds: S -> bool)
    requires Stable(visit, holds) && holds(s)
    ensures holds(Fold(s, places, visit))
    decreases |places|
  {
    if places != [] {
      FoldKeeps(visit(s, places[0]).state, places[1..], visit, holds);
    }
  }

  lemma {:induction false} WalkKeeps<S(!new)>(kids: seq<Entry>, prefix: Path, depth: nat, visit: Visitor<S>, s: S, holds: S -> bool)
    requires Stable(visit, holds) && holds(s)
    ensures holds(Walked(kids, prefix, depth, visit, s))
    decreases kids
  {
    if kids != [] {
      var place := Place(prefix + [kids[0].name], depth + 1, kids[0].node);
      var v := visit(s, place);
      if !v.stop {
        var inner := if kids[0].node.Dir? && v.descend then Walked(kids[0].node.children, place.path, depth + 1, visit, v.state) else v.state;
        if kids[0].node.Dir? && v.descend {
          WalkKeeps(kids[0].node.children, place.path, depth + 1, visit, v.state, holds);
        }
        WalkKeeps(kids[1..], prefix, depth, visit, inner, holds);
      }
    }
  }

  /**
    A visitor that may go on changing after it has stopped walks as the plain
    pass does exactly as long as it is not marked, and is marked by the one
    precisely when it is marked by the other.
   */
  lemma {:induction false} UnmarkedWalkIsFold<S(!new)>(kids: seq<Entry>, prefix: Path, depth: nat, visit: Visitor<S>,
                                                       enters: (nat, Node) -> bool, s: S, marked: S -> bool)
    requires Marks(visit, marked) && Descends(visit, enters)
    ensures var walked := Walked(kids, prefix, depth, visit, s);
            var folded := Fold(s, Places(kids, prefix, depth, enters), visit);
            (marked(walked) <==> marked(folded)) && (!marked(walked) ==> walked == folded)
    decreases kids
  {
    if kids != [] {
      var place := Place(prefix + [kids[0].name], depth + 1, kids[0].node);
      var v := visit(s, place);
      var enter := kids[0].node.Dir? && enters(depth + 1, kids[0].node);
      var sub := if enter then Places(kids[0].node.children, place.path, depth + 1, enters) else [];
      var rest := Places(kids[1..], prefix, depth, enters);
      assert Places(kids, prefix, depth, enters) == [place] + sub + rest;
      FoldThree(s, place, sub, rest, visit);
      if v.stop {
        FoldKeeps(v.state, sub, visit, marked);
        FoldKeeps(Fold(v.state, sub, visit), rest, visit, marked);
      } else {
        var inner := if enter then Walked(kids[0].node.children, place.path, depth + 1, visit, v.state) else v.state;
        if enter {
          UnmarkedWalkIsFold(kids[0].node.children, place.path, depth + 1, visit, enters, v.state, marked);
        }
        if marked(inner) {
          WalkKeeps(kids[1..], prefix, depth, visit, inner, marked);
          FoldKeeps(Fold(v.state, sub, visit), rest, visit, marked);
        } else {
          UnmarkedWalkIsFold(kids[1..], prefix, depth, visit, enters, inner, marked);
        }
      }
    }
  }

  // ----- the tree

  /** A directory holds each name once, at every level, and a name is one path component. */
  ghost predicate NamesDistinct(kids: seq<Entry>)
    decreases kids
  {
    && (forall i, j | 0 <= i < j < |kids| :: kids[i].name != kids[j].name)
    && (forall entry <- kids :: CleanComponent(entry.name))
    && (forall i | 0 <= i < |kids| :: kids[i].node.Dir? ==> NamesDistinct(kids[i].node.children))
  }

  /** Every place below a directory starts with its prefix and goes on with one of its names. */
  lemma {:induction false} PlacesBelow(kids: seq<Entry>, prefix: Path, depth: nat, enters: (nat, Node) -> bool)
    ensures forall p <- Places(kids, prefix, depth, enters) ::
              prefix < p.path && p.depth == depth + |p.path| - |prefix| && exists k <- kids :: k.name == p.path[|prefix|]
    decreases kids
  {
    if kids != [] {
      var path := prefix + [kids[0].name];
      assert kids[0] in kids && forall k <- kids[1..] :: k in kids;
      assert path[|prefix|] == kids[0].name;
      if kids[0].node.Dir? && enters(depth + 1, kids[0].node) {
        PlacesBelow(kids[0].node.children, path, depth + 1, enters);
      }
      PlacesBelow(kids[1..], prefix, depth, enters);
    }
  }

  ghost predicate PathsDistinct(places: seq<Place>) {
    forall i, j | 0 <= i < j < |places| :: places[i].path != places[j].path
  }

  /** No node is visited twice. */
  lemma {:induction false} PlacesDistinct(kids: seq<Entry>, prefix: Path, depth: nat, enters: (nat, Node) -> bool)
    requires NamesDistinct(kids)
    ensures PathsDistinct(Places(kids, prefix, depth, enters))
    decreases kids
  {
    if kids != [] {
      var path := prefix + [kids[0].name];
      var head := [Place(path, depth + 1, kids[0].node)];
      var sub := if kids[0].node.Dir? && enters(depth + 1, kids[0].node) then Places(kids[0].node.children, path, depth + 1, enters) else [];
      var rest := Places(kids[1..], prefix, depth, enters);
      PlacesBelow(kids[1..], prefix, depth, enters);
      if kids[0].node.Dir? && enters(depth + 1, kids[0].node) {
        PlacesBelow(kids[0].node.children, path, depth + 1, enters);
        PlacesDistinct(kids[0].node.children, path, depth + 1, enters);
      }
      PlacesDistinct(kids[1..], prefix, depth, enters);
      assert path[|prefix|] == kids[0].name;
      assert forall p: Place | p in head + sub :: path <= p.path;
      assert forall p: Place | p in rest :: !(path <= p.path);
      assert Places(kids, prefix, depth, enters) == head + sub + rest;
      OneIsDistinct(head, sub);
      DisjointStaysDistinct(head + sub, rest);
    }
  }

  lemma {:induction false} OneIsDistinct(head: seq<Place>, sub: seq<Place>)
    requires |head| == 1 && PathsDistinct(sub) && forall p <- sub :: head[0].path < p.path
    ensures PathsDistinct(head + sub)
  {
    forall i, j | 0 <= i < j < |head + sub|
      ensures (head + sub)[i].path != (head + sub)[j].path
    {
      var k := j - 1;
      assert (head + sub)[j] == sub[k];
      assert i > 0 ==> (head + sub)[i] == sub[i - 1];
    }
  }

  lemma {:induction false} DisjointStaysDistinct(a: seq<Place>, b: seq<Place>)
    requires PathsDistinct(a) && PathsDistinct(b)
    requires forall p <- a, q <- b :: p.path != q.path
    ensures PathsDistinct(a + b)
  {
    forall i, j | 0 <= i < j < |a + b|
      ensures (a + b)[i].path != (a + b)[j].path
    {
      var m := if i < |a| then 0 else i - |a|;
      var n := if j < |a| then 0 else j - |a|;
      assert i < |a| ==> (a + b)[i] == a[i];
      assert j < |a| ==> (a + b)[j] == a[j];
      assert i >= |a| ==> (a + b)[i] == b[m];
      assert j >= |a| ==> (a + b)[j] == b[n];
    }
  }

  /** The paths a walk reports are clean. */
  lemma {:induction false} PlacesAreClean(kids: seq<Entry>, prefix: Path, depth: nat, enters: (nat, Node) -> bool)
    requires NamesDistinct(kids) && CleanPath(prefix)
    ensures forall p <- Places(kids, prefix, depth, enters) :: CleanPath(p.path)
    decreases kids
  {
    if kids != [] {
      assert kids[0] in kids;
      if kids[0].node.Dir? && enters(depth + 1, kids[0].node) {
        PlacesAreClean(kids[0].node.children, prefix + [kids[0].name], depth + 1, enters);
      }
      PlacesAreClean(kids[1..], prefix, depth, enters);
    }
  }

  function Everywhere(): (nat, Node) -> bool {
    (_, _) => true
  }

  function Above(max: nat): (nat, Node) -> bool {
    (depth, _) => depth < max
  }

  function Within(max: nat): Place -> bool {
    (p: Place) => p.depth <= max
  }

  /** The elements a predicate keeps, in order. */
  function Only<T>(s: seq<T>, keep: T -> bool): seq<T> {
    if s == [] then [] else (if keep(s[0]) then [s[0]] else []) + Only(s[1..], keep)
  }

  lemma {:induction false} OnlyAppend<T>(a: seq<T>, b: seq<T>, keep: T -> bool)
    ensures Only(a + b, keep) == Only(a, keep) + Only(b, keep)
  {
    if a == [] {
      assert a + b == b;
    } else {
      var head := if keep(a[0]) then [a[0]] else [];
      OnlyAppend(a[1..], b, keep);
      assert (a + b)[1..] == a[1..] + b;
      assert Only(a + b, keep) == head + Only(a[1..] + b, keep);
      assert head + (Only(a[1..], keep) + Only(b, keep)) == head + Only(a[1..], keep) + Only(b, keep);
    }
  }

  lemma {:induction false} OnlyMembers<T>(s: seq<T>, keep: T -> bool, x: T)
    ensures x in Only(s, keep) <==> x in s && keep(x)
  {
    if s != [] {
      OnlyMembers(s[1..], keep, x);
      assert s == [s[0]] + s[1..];
    }
  }

  lemma {:induction false} OnlyNone<T>(s: seq<T>, keep: T -> bool)
    requires forall x <- s :: !keep(x)
    ensures Only(s, keep) == []
  {
    if s != [] {
      OnlyNone(s[1..], keep);
    }
  }

  /** Not entering directories at a depth leaves exactly the nodes of the whole tree down to it. */
  lemma {:induction false} ShallowPlaces(kids: seq<Entry>, prefix: Path, depth: nat, max: nat)
    requires depth < max
    ensures Places(kids, prefix, depth, Above(max)) == Only(Places(kids, prefix, depth, Everywhere()), Within(max))
    decreases kids
  {
    if kids != [] {
      var place := Place(prefix + [kids[0].name], depth + 1, kids[0].node);
      var all := if kids[0].node.Dir? then Places(kids[0].node.children, place.path, depth + 1, Everywhere()) else [];
      var entered := kids[0].node.Dir? && Above(max)(depth + 1, kids[0].node);
      var some := if entered then Places(kids[0].node.children, place.path, depth + 1, Above(max)) else [];
      assert some == Only(all, Within(max)) by {
        if entered {
          ShallowPlaces(kids[0].node.children, place.path, depth + 1, max);
        } else if kids[0].node.Dir? {
          PlacesBelow(kids[0].node.children, place.path, depth + 1, Everywhere());
          OnlyNone(all, Within(max));
        }
      }
      ShallowPlaces(kids[1..], prefix, depth, max);
      KeepsThree(place, all, Places(kids[1..], prefix, depth, Everywhere()), Within(max));
      assert Places(kids, prefix, depth, Everywhere()) == [place] + all + Places(kids[1..], prefix, depth, Everywhere());
    }
  }

  lemma {:induction false} KeepsThree<T>(x: T, a: seq<T>, b: seq<T>, keep: T -> bool)
    requires keep(x)
    ensures Only([x] + a + b, keep) == [x] + Only(a, keep) + Only(b, keep)
  {
    OnlyAppend(a, b, keep);
    assert ([x] + a + b)[1..] == a + b;
  }

  lemma {:induction false} ShallowPlacesFrom(root: Node, max: nat)
    requires max > 0
    ensures PlacesFrom(root, Above(max)) == Only(PlacesFrom(root, Everywhere()), Within(max))
  {
    if root.Dir? {
      ShallowPlaces(root.children, [], 0, max);
    } else {
      var one := [Place([], 0, root)];
      assert one[1..] == [] && Only(one, Within(max)) == one;
    }
  }

  /** A pass that met no directory it would not enter has met the whole tree. */
  lemma {:induction false} NothingLeftOut(kids: seq<Entry>, prefix: Path, depth: nat, enters: (nat, Node) -> bool)
    requires forall p <- Places(kids, prefix, depth, enters) :: p.node.Dir? ==> enters(p.depth, p.node)
    ensures Places(kids, prefix, depth, enters) == Places(kids, prefix, depth, Everywhere())
    decreases kids
  {
    if kids != [] {
      var place := Place(prefix + [kids[0].name], depth + 1, kids[0].node);
      assert place in Places(kids, prefix, depth, enters);
      if kids[0].node.Dir? {
        NothingLeftOut(kids[0].node.children, place.path, depth + 1, enters);
      }
      NothingLeftOut(kids[1..], prefix, depth, enters);
    }
  }
}
