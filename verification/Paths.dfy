/**
  Lexical path containment.

  A path is absolute, clean and resolved, and is given by its components: the
  empty sequence is "/". The source never compares components. It asks
  filepath.Rel for a relative path and looks at the text of the answer, so the
  text is modelled too and proved to say what the components say.
 */
module Paths {

  type Path = seq<string>

  predicate CleanComponent(c: string) {
    c != "" && c != "." && c != ".." && '/' !in c
  }

  /** An identifier that may name a file: one path component, without a backslash. */
  predicate ValidId(id: string) {
    CleanComponent(id) && '\\' !in id
  }

  ghost predicate CleanPath(p: Path) {
    forall c <- p :: CleanComponent(c)
  }

  /** The components joined by the separator. */
  function Join(cs: seq<string>): string {
    if cs == [] then ""
    else if |cs| == 1 then cs[0]
    else cs[0] + "/" + Join(cs[1..])
  }

  /** How many leading components the two paths share. */
  function CommonLength(a: Path, b: Path): (n: nat)
    ensures n <= |a| && n <= |b|
    ensures a[..n] == b[..n]
    ensures n < |a| && n < |b| ==> a[n] != b[n]
  {
    if a == [] || b == [] || a[0] != b[0] then 0
    else
      var n := 1 + CommonLength(a[1..], b[1..]);
      assert a[..n] == [a[0]] + a[1..][..n - 1];
      assert b[..n] == [b[0]] + b[1..][..n - 1];
      n
  }

  /** The text filepath.Rel returns for two absolute clean paths. */
  function Rel(base: Path, target: Path): string {
    var n := CommonLength(base, target);
    var parts := seq(|base| - n, _ => "..") + target[n..];
    if parts == [] then "." else Join(parts)
  }

  /** The containment test the source writes in seven places. */
  predicate Inside(root: Path, path: Path) {
    var rel := Rel(root, path);
    rel != ".." && !("../" <= rel)
  }

  predicate WithinAny(path: Path, roots: seq<Path>) {
    exists root <- roots :: Inside(root, path)
  }

  /** A joined path is its first component, alone or followed by the separator. */
  lemma {:induction false} JoinHead(cs: seq<string>)
    requires cs != []
    ensures |cs| == 1 ==> Join(cs) == cs[0]
    ensures |cs| > 1 ==> cs[0] + "/" <= Join(cs)
  {
    if |cs| > 1 {
      assert Join(cs) == (cs[0] + "/") + Join(cs[1..]);
    }
  }

  /** Text that starts with a clean component is neither ".." nor an ascent: "..foo" is not mistaken for "..". */
  lemma {:induction false} CleanHeadIsNotAscent(c: string, text: string)
    requires CleanComponent(c)
    requires text == c || c + "/" <= text
    ensures text != ".." && !("../" <= text)
  {
    assert forall i | 0 <= i < |c| :: text[i] == c[i] && c[i] != '/';
    assert |text| >= 3 && text[2] == '/' ==> |c| <= 2;
    assert |c| == 1 && c[0] == '.' ==> c == ".";
    assert text == c || text[|c|] == '/';
    assert |c| == 2 && c[0] == '.' && c[1] == '.' ==> c == "..";
  }

  /** The string test on the relative path is exactly component prefix. */
  lemma {:induction false} InsideIsPrefix(root: Path, path: Path)
    requires CleanPath(root) && CleanPath(path)
    ensures Inside(root, path) <==> root <= path
  {
    var n := CommonLength(root, path);
    var ups := seq(|root| - n, _ => "..");
    var parts := ups + path[n..];
    if n == |root| {
      assert root == root[..n] == path[..n];
      assert parts == path[n..];
      if parts != [] {
        JoinHead(parts);
        assert parts[0] == path[n];
        CleanHeadIsNotAscent(parts[0], Join(parts));
      }
    } else {
      assert parts[0] == "..";
      JoinHead(parts);
      assert ".." + "/" == "../";
      assert n < |path| ==> path[n] != root[n];
    }
  }

  lemma {:induction false} WithinAnyIsPrefix(path: Path, roots: seq<Path>)
    requires CleanPath(path) && forall root <- roots :: CleanPath(root)
    ensures WithinAny(path, roots) <==> exists root <- roots :: root <= path
  {
    forall root | root in roots
      ensures Inside(root, path) <==> root <= path
    {
      InsideIsPrefix(root, path);
    }
  }

  /** Two roots of one path are nested, and the longer text is the deeper root. */
  lemma {:induction false} RootsOfOnePathAreNested(a: Path, b: Path, path: Path)
    requires CleanPath(path) && a <= path && b <= path
    ensures a <= b || b <= a
    ensures |Join(a)| < |Join(b)| <==> a < b
  {
    assert a == path[..|a|] && b == path[..|b|];
    if |b| < |a| {
      JoinGrows(b, a);
    } else if |a| < |b| {
      JoinGrows(a, b);
    }
  }

  lemma {:induction false} JoinGrows(a: Path, b: Path)
    requires a < b && CleanPath(b)
    ensures |Join(a)| < |Join(b)|
  {
    assert CleanComponent(b[0]);
    if a != [] {
      assert a[0] == b[0];
      if |a| > 1 {
        JoinGrows(a[1..], b[1..]);
      }
    }
  }

  // ----- filepath.Clean on an absolute path

  predicate IsAbsolute(text: string) {
    text != "" && text[0] == '/'
  }

  /** The text between separators. */
  function Split(text: string): seq<string> {
    if text == "" then [""]
    else
      var rest := Split(text[1..]);
      if text[0] == '/' then [""] + rest else [[text[0]] + rest[0]] + rest[1..]
  }

  /** Empty and "." parts vanish; ".." removes the part before it and stops at the root. */
  function CleanParts(parts: seq<string>, done: Path): Path
    decreases |parts|
  {
    if parts == [] then done
    else if parts[0] == "" || parts[0] == "." then CleanParts(parts[1..], done)
    else if parts[0] == ".." then CleanParts(parts[1..], if done == [] then [] else done[..|done| - 1])
    else CleanParts(parts[1..], done + [parts[0]])
  }

  /** The components of an absolute path as filepath.Clean leaves them. */
  function Cleaned(text: string): Path {
    CleanParts(Split(text), [])
  }

  lemma {:induction false} SplitHasNoSeparator(text: string)
    ensures Split(text) != [] && forall part <- Split(text) :: '/' !in part
  {
    if text != "" {
      SplitHasNoSeparator(text[1..]);
      var rest := Split(text[1..]);
      assert forall part <- rest[1..] :: part in rest;
    }
  }

  lemma {:induction false} CleanPartsIsClean(parts: seq<string>, done: Path)
    requires CleanPath(done) && forall part <- parts :: '/' !in part
    ensures CleanPath(CleanParts(parts, done))
    decreases |parts|
  {
    if parts != [] {
      assert '/' !in parts[0];
      var shorter := if done == [] then [] else done[..|done| - 1];
      if parts[0] == "" || parts[0] == "." {
        CleanPartsIsClean(parts[1..], done);
      } else if parts[0] == ".." {
        CleanPartsIsClean(parts[1..], shorter);
      } else {
        CleanPartsIsClean(parts[1..], done + [parts[0]]);
      }
    }
  }

  lemma {:induction false} CleanedIsClean(text: string)
    ensures CleanPath(Cleaned(text))
  {
    SplitHasNoSeparator(text);
    CleanPartsIsClean(Split(text), []);
  }

  lemma {:induction false} SplitComponent(c: string, rest: string)
    requires '/' !in c
    ensures Split(c + "/" + rest) == [c] + Split(rest)
    ensures Split(c) == [c]
  {
    if c == "" {
      assert c + "/" + rest == "/" + rest;
    } else {
      assert (c + "/" + rest)[1..] == c[1..] + "/" + rest;
      SplitComponent(c[1..], rest);
      assert [c[0]] + c[1..] == c;
    }
  }

  lemma {:induction false} SplitUndoesJoin(p: Path)
    requires CleanPath(p) && p != []
    ensures Split(Join(p)) == p
  {
    assert CleanComponent(p[0]);
    if |p| == 1 {
      SplitComponent(p[0], "");
    } else {
      SplitUndoesJoin(p[1..]);
      SplitComponent(p[0], Join(p[1..]));
    }
  }

  lemma {:induction false} CleanPartsStay(parts: Path, done: Path)
    requires CleanPath(parts)
    ensures CleanParts(parts, done) == done + parts
    decreases |parts|
  {
    if parts != [] {
      assert CleanComponent(parts[0]);
      CleanPartsStay(parts[1..], done + [parts[0]]);
    }
  }

  /** Cleaning leaves the text of a clean path alone, so cleaning twice is cleaning once. */
  lemma {:induction false} CleanedUndoesText(p: Path)
    requires CleanPath(p)
    ensures Cleaned("/" + Join(p)) == p
  {
    assert ("/" + Join(p))[1..] == Join(p);
    if p == [] {
      assert Split("") == [""];
      assert Split("/" + Join(p)) == ["", ""];
      assert ["", ""][1..] == [""];
    } else {
      SplitUndoesJoin(p);
      assert Split("/" + Join(p)) == [""] + p;
      assert ([""] + p)[1..] == p;
      CleanPartsStay(p, []);
    }
  }

  lemma {:induction false} SplitAppend(text: string, rest: string)
    ensures Split(text + "/" + rest) == Split(text) + Split(rest)
  {
    var whole := text + "/" + rest;
    if text == "" {
      assert whole[1..] == rest && whole[0] == '/';
    } else {
      assert whole[0] == text[0] && whole[1..] == text[1..] + "/" + rest;
      SplitAppend(text[1..], rest);
      SplitHasNoSeparator(text[1..]);
      FrontGrows(Split(text[1..]), Split(rest), text[0]);
    }
  }

  /** Putting a character in front of the first part, or a part in front of all, does not touch what follows. */
  lemma {:induction false} FrontGrows(a: seq<string>, b: seq<string>, c: char)
    requires a != []
    ensures [[c] + (a + b)[0]] + (a + b)[1..] == ([[c] + a[0]] + a[1..]) + b
    ensures [""] + (a + b) == ([""] + a) + b
  {
    assert (a + b)[1..] == a[1..] + b;
  }

  lemma {:induction false} CleanPartsAppend(a: seq<string>, b: seq<string>, done: Path)
    ensures CleanParts(a + b, done) == CleanParts(b, CleanParts(a, done))
    decreases |a|
  {
    if a == [] {
      assert a + b == b;
    } else {
      assert (a + b)[0] == a[0] && (a + b)[1..] == a[1..] + b;
      if a[0] == "" || a[0] == "." {
        CleanPartsAppend(a[1..], b, done);
      } else if a[0] == ".." {
        CleanPartsAppend(a[1..], b, if done == [] then [] else done[..|done| - 1]);
      } else {
        CleanPartsAppend(a[1..], b, done + [a[0]]);
      }
    }
  }

  /**
    What cleaning does, one component at a time: a name goes one level down,
    ".." one level up but not beyond the root, and "." or nothing stays. Since
    the empty text cleans to the root, this is all there is to say.
   */
  lemma {:induction false} CleanedStep(text: string, part: string)
    requires '/' !in part
    ensures Cleaned("") == []
    ensures var here := Cleaned(text);
            Cleaned(text + "/" + part) ==
              if part == "" || part == "." then here
              else if part == ".." then (if here == [] then [] else here[..|here| - 1])
              else here + [part]
  {
    SplitAppend(text, part);
    SplitComponent(part, "");
    CleanPartsAppend(Split(text), [part], []);
    assert [part][1..] == [] && [""][1..] == [];
  }

  /** The record of a valid identifier lies in its directory, whatever the identifier is. */
  lemma {:induction false} IdNamesOneFile(dir: Path, id: string)
    requires CleanPath(dir)
    ensures ValidId(id) <==> id !in {"", ".", ".."} && forall c <- id :: c != '/' && c != '\\'
    ensures ValidId(id) ==> Cleaned("/" + Join(dir + [id + ".json"])) == dir + [id + ".json"]
  {
    var name := id + ".json";
    if ValidId(id) {
      assert |name| >= 6 && CleanComponent(name);
      CleanedUndoesText(dir + [name]);
    }
  }
}
