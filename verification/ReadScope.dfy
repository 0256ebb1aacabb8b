/**
  The read scope of a request: which paths the operator named, which ones were
  excluded, and whether a tool call the planner proposes stays inside.
 */
module ReadScope {
  import opened Wrappers
  import opened Paths

  datatype Scope = Scope(authorized: seq<Path>, excluded: seq<Path>)

  datatype Kind = Tool | ActionRequest | Final | Replan

  /** The path argument as it arrives: absent, not a string, or a string. */
  datatype Argument = Absent | NotText | Text(text: string)

  datatype Decision = Decision(kind: Kind, tool: string, path: Argument)

  datatype Code = ToolMismatch | PathRequired | PathInvalid | Excluded | Mismatch

  datatype Violation = Violation(code: Code, tool: string, attempted: Option<Path>)

  predicate Traverses(tool: string) {
    tool in {"file/file.list_directory", "file/file.find_large", "config/config.snapshot", "config/config.diff_snapshot"}
  }

  predicate TakesPath(tool: string) {
    tool in {"file/file.stat", "file/file.list_directory", "file/file.sha256", "file/file.find_large",
             "config/config.get_metadata", "config/config.snapshot", "config/config.diff_snapshot",
             "system/system.get_disk_usage", "diagnostic/diagnostic.disk_pressure"}
  }

  ghost predicate CleanScope(scope: Scope) {
    (forall a <- scope.authorized :: CleanPath(a)) && (forall x <- scope.excluded :: CleanPath(x))
  }

  /** Exclusions alone were given. */
  predicate OnlyExcludes(scope: Scope) {
    scope.authorized == [] && scope.excluded != []
  }

  /** pathWithinScope. */
  predicate WithinScope(authorized: Path, candidate: Path) {
    authorized == candidate || Inside(authorized, candidate)
  }

  /** The paths a call can look at: a traversing tool goes below its argument. */
  ghost predicate Reaches(tool: string, p: Path, q: Path) {
    CleanPath(q) && if Traverses(tool) then p <= q else p == q
  }

  /** Nothing the call can look at is excluded. */
  ghost predicate AvoidsExcluded(scope: Scope, tool: string, p: Path) {
    forall q | Reaches(tool, p, q) :: forall x <- scope.excluded :: !(x <= q)
  }

  /** Everything the call can look at is authorized. */
  ghost predicate StaysAuthorized(scope: Scope, tool: string, p: Path) {
    forall q | Reaches(tool, p, q) :: exists a <- scope.authorized :: a <= q
  }

  /** The absolute path a decision names. */
  predicate NamesPath(d: Decision) {
    d.path.Text? && IsAbsolute(d.path.text)
  }

  /** What a decision may do under a scope, said without the checks. */
  ghost predicate Permitted(scope: Option<Scope>, d: Decision) {
    || scope.None?
    || d.kind != Tool
    || (scope.value.authorized == [] && scope.value.excluded != [] && !TakesPath(d.tool))
    || (&& TakesPath(d.tool) && NamesPath(d)
        && AvoidsExcluded(scope.value, d.tool, Cleaned(d.path.text))
        && ((scope.value.authorized == [] && scope.value.excluded != []) || StaysAuthorized(scope.value, d.tool, Cleaned(d.path.text))))
  }

  lemma {:induction false} WithinScopeIsPrefix(a: Path, p: Path)
    requires CleanPath(a) && CleanPath(p)
    ensures WithinScope(a, p) <==> a <= p
  {
    InsideIsPrefix(a, p);
  }

  /** The test the loop makes: one of the two paths contains the other. */
  ghost predicate Touches(tool: string, p: Path, x: Path) {
    x <= p || (Traverses(tool) && p <= x)
  }

  /** A call can look at an excluded path exactly when the test says so. */
  lemma {:induction false} AvoidsUntouched(scope: Scope, tool: string, p: Path)
    requires CleanPath(p) && CleanScope(scope)
    ensures AvoidsExcluded(scope, tool, p) <==> forall i | 0 <= i < |scope.excluded| :: !Touches(tool, p, scope.excluded[i])
  {
    forall i | 0 <= i < |scope.excluded| && AvoidsExcluded(scope, tool, p)
      ensures !Touches(tool, p, scope.excluded[i])
    {
      var x := scope.excluded[i];
      assert x in scope.excluded && CleanPath(x);
      assert Reaches(tool, p, p);
      assert Traverses(tool) && p <= x ==> Reaches(tool, p, x) && x <= x;
    }
    forall q, x | Reaches(tool, p, q) && x in scope.excluded && x <= q
      ensures Touches(tool, p, x)
    {
      assert p == q[..|p|] && x == q[..|x|];
    }
  }

  /** Authorizing a path authorizes everything the call can reach from it, and nothing less will do. */
  lemma {:induction false} ReachesAuthorized(scope: Scope, tool: string, p: Path)
    requires CleanPath(p)
    ensures StaysAuthorized(scope, tool, p) <==> exists a <- scope.authorized :: a <= p
  {
    assert Reaches(tool, p, p);
    forall q | Reaches(tool, p, q) && exists a <- scope.authorized :: a <= p
      ensures exists a <- scope.authorized :: a <= q
    {
      var a :| a in scope.authorized && a <= p;
      assert a <= q;
    }
  }

  /** The test as it is written. */
  predicate Hits(tool: string, path: Path, x: Path) {
    WithinScope(x, path) || (Traverses(tool) && WithinScope(path, x))
  }

  lemma {:induction false} HitsIsTouches(tool: string, path: Path, x: Path)
    requires CleanPath(x) && CleanPath(path)
    ensures Hits(tool, path, x) <==> Touches(tool, path, x)
  {
    WithinScopeIsPrefix(x, path);
    WithinScopeIsPrefix(path, x);
  }

  /** The loop over the excluded paths. */
  method LooksAtExcluded(scope: Scope, tool: string, path: Path) returns (hit: bool)
    requires CleanScope(scope) && CleanPath(path)
    ensures hit <==> !AvoidsExcluded(scope, tool, path)
  {
    hit := false;
    var i := 0;
    while i < |scope.excluded| && !hit
      invariant 0 <= i <= |scope.excluded|
      invariant !hit ==> forall k | 0 <= k < i :: !Touches(tool, path, scope.excluded[k])
      invariant hit ==> exists k | 0 <= k < |scope.excluded| :: Touches(tool, path, scope.excluded[k])
    {
      assert CleanPath(scope.excluded[i]);
      HitsIsTouches(tool, path, scope.excluded[i]);
      hit := Hits(tool, path, scope.excluded[i]);
      i := i + 1;
    }
    AvoidsUntouched(scope, tool, path);
  }

  /** The loop over the authorized paths. */
  method HasAuthority(scope: Scope, tool: string, path: Path) returns (ok: bool)
    requires CleanScope(scope) && CleanPath(path)
    ensures ok <==> StaysAuthorized(scope, tool, path)
  {
    ReachesAuthorized(scope, tool, path);
    var i := 0;
    while i < |scope.authorized|
      invariant 0 <= i <= |scope.authorized|
      invariant forall k | 0 <= k < i :: !(scope.authorized[k] <= path)
    {
      assert scope.authorized[i] in scope.authorized;
      WithinScopeIsPrefix(scope.authorized[i], path);
      if WithinScope(scope.authorized[i], path) {
        return true;
      }
      i := i + 1;
    }
    return false;
  }

  /** validateGeneralReadScope: it lets a decision through exactly when everything the call can look at is in scope. */
  method ValidateReadScope(scope: Option<Scope>, d: Decision) returns (r: Option<Violation>)
    requires scope.Some? ==> CleanScope(scope.value)
    ensures r.None? <==> Permitted(scope, d)
    ensures r.Some? ==> r.value.tool == d.tool
    ensures r.Some? && r.value.code == ToolMismatch <==>
              && scope.Some? && d.kind == Tool && !TakesPath(d.tool)
              && !(scope.value.authorized == [] && scope.value.excluded != [])
    ensures r.Some? && r.value.code == PathRequired <==> scope.Some? && d.kind == Tool && TakesPath(d.tool) && d.path.Absent?
    ensures r.Some? && r.value.code == PathInvalid <==> scope.Some? && d.kind == Tool && TakesPath(d.tool) && !d.path.Absent? && !NamesPath(d)
    ensures r.Some? && NamesPath(d) && TakesPath(d.tool) ==>
              && r.value.attempted == Some(Cleaned(d.path.text))
              && (r.value.code == Excluded <==> !AvoidsExcluded(scope.value, d.tool, Cleaned(d.path.text)))
  {
    if scope.None? || d.kind != Tool {
      return None;
    }
    var s := scope.value;
    if OnlyExcludes(s) && !TakesPath(d.tool) {
      return None;
    }
    if !TakesPath(d.tool) {
      return Some(Violation(ToolMismatch, d.tool, None));
    }
    if d.path.Absent? {
      return Some(Violation(PathRequired, d.tool, None));
    }
    if !NamesPath(d) {
      return Some(Violation(PathInvalid, d.tool, None));
    }
    var path := Cleaned(d.path.text);
    CleanedIsClean(d.path.text);
    var excluded := LooksAtExcluded(s, d.tool, path);
    if excluded {
      return Some(Violation(Excluded, d.tool, Some(path)));
    }
    if OnlyExcludes(s) {
      return None;
    }
    var authorized := HasAuthority(s, d.tool, path);
    if authorized {
      return None;
    }
    return Some(Violation(Mismatch, d.tool, Some(path)));
  }
}
