/**
 * POSIX paths as Python's `pathlib` parses and manipulates them (the rules of
 * CPython 3.12's `PurePosixPath`): a path is its root and its list of
 * components; `str`, `name`, `suffix`, `stem`, `parent`, `/`, `with_suffix`
 * and `relative_to` are functions over that value.
 */
module Paths {
  import opened Common

  /** A parsed path: the root ("", "/" or "//") and the components after it. */
  datatype Path = Path(root: string, parts: seq<string>)

  /** A component pathlib keeps after parsing: non-empty, not ".", without a separator. */
  predicate ValidPart(s: string) {
    s != "" && s != "." && '/' !in s
  }

  predicate ValidRoot(root: string) {
    root == "" || root == "/" || root == "//"
  }

  /** Every path that `Parse` produces is of this form. */
  predicate Valid(p: Path) {
    ValidRoot(p.root) && forall i :: 0 <= i < |p.parts| ==> ValidPart(p.parts[i])
  }

  /** `"/".join(ps)` */
  function JoinSep(ps: seq<string>): string {
    if |ps| == 0 then "" else if |ps| == 1 then ps[0] else ps[0] + "/" + JoinSep(ps[1..])
  }

  /** `s.split("/")`: always at least one field (see SplitFields). */
  function Split(s: string): (r: seq<string>)
    ensures |r| >= 1
  {
    if s == [] then [""]
    else
      var rest := Split(s[1..]);
      if s[0] == '/' then [""] + rest else [[s[0]] + rest[0]] + rest[1..]
  }

  /** The components pathlib keeps of a split string: `[x for x in parts if x and x != '.']`. */
  function Keep(ps: seq<string>): seq<string> {
    if ps == [] then []
    else (if ps[0] == "" || ps[0] == "." then [] else [ps[0]]) + Keep(ps[1..])
  }

  /**
   * The root `posixpath.splitroot` finds: none, one slash, or exactly two slashes
   * (three or more leading slashes collapse to one).
   */
  function SplitRoot(s: string): (root: string)
    ensures ValidRoot(root)
  {
    if |s| == 0 || s[0] != '/' then ""
    else if |s| >= 2 && s[1] == '/' && (|s| == 2 || s[2] != '/') then "//"
    else "/"
  }

  /**
   * `PurePosixPath(s)`: the root, then the components between separators with
   * empty ones (repeated or leading slashes) and "." dropped; ".." is kept.
   */
  function Parse(s: string): (p: Path)
    ensures Valid(p)
  {
    SplitFields(s);
    KeepValidParts(Split(s));
    Path(SplitRoot(s), Keep(Split(s)))
  }

  /** `str(p)`: the root followed by the components joined with "/", or "." when that is empty. */
  function Str(p: Path): string {
    var s := p.root + JoinSep(p.parts);
    if s == "" then "." else s
  }

  /** `p.name`: the last component, or "" for a path made of a root alone. */
  function Name(p: Path): string {
    if |p.parts| == 0 then "" else p.parts[|p.parts| - 1]
  }

  /** `p.parent`: the path without its last component; a path without components is its own parent. */
  function Parent(p: Path): Path {
    if |p.parts| == 0 then p else Path(p.root, p.parts[..|p.parts| - 1])
  }

  /** `a / b`: an absolute `b` replaces `a`; a relative one is appended to it. */
  function JoinPaths(a: Path, b: Path): Path {
    if b.root != "" then b else Path(a.root, a.parts + b.parts)
  }

  /** `s.rfind(c)`: the last index holding `c`, or -1. */
  function LastIndexOf(s: string, c: char): (i: int)
    ensures -1 <= i < |s|
  {
    if s == [] then -1
    else if s[|s| - 1] == c then |s| - 1
    else LastIndexOf(s[..|s| - 1], c)
  }

  /** `suffix` of a name: from its last dot on, unless that dot is first or last. */
  function Suffix(name: string): string {
    var i := LastIndexOf(name, '.');
    if 0 < i < |name| - 1 then name[i..] else ""
  }

  /** `stem` of a name: the name without its suffix. */
  function Stem(name: string): string {
    var i := LastIndexOf(name, '.');
    if 0 < i < |name| - 1 then name[..i] else name
  }

  /** A suffix `with_suffix` accepts: no separator, and empty or a dot followed by something. */
  predicate ValidSuffix(sfx: string) {
    '/' !in sfx && (sfx == "" || (sfx[0] == '.' && sfx != "."))
  }

  /** A suffix of exactly one dot and a non-empty dot-free extension, such as ".md" or ".json". */
  predicate SimpleSuffix(sfx: string) {
    |sfx| >= 2 && sfx[0] == '.' && '/' !in sfx && '.' !in sfx[1..]
  }

  /**
   * `p.with_suffix(sfx)`: the last component with its old suffix cut off and `sfx`
   * appended; `None` for the ValueError raised on an invalid suffix, on a path
   * whose name is empty, or on a new name `with_name` rejects.
   */
  function WithSuffix(p: Path, sfx: string): (r: Option<Path>)
  {
    if !ValidSuffix(sfx) || Name(p) == "" then None
    else
      var name := Name(p);
      var oldSuffix := Suffix(name);
      var newName := if oldSuffix == "" then name + sfx else name[..|name| - |oldSuffix|] + sfx;
      if !ValidPart(newName) then None
      else Some(Path(p.root, p.parts[..|p.parts| - 1] + [newName]))
  }

  /**
   * `p.relative_to(base)` (without `walk_up`): the components of `p` after those
   * of `base` as a relative path, when both have the same root and `base`'s
   * components begin `p`'s; `None` for the ValueError raised otherwise.
   */
  function RelativeTo(p: Path, base: Path): Option<Path>
  {
    var n := |base.parts|;
    if p.root == base.root && n <= |p.parts| && p.parts[..n] == base.parts
    then Some(Path("", p.parts[n..]))
    else None
  }

  // ---------------------------------------------------------------------------
  // Parsing and printing

  /** No field of a split holds "/", and joining the fields with "/" gives the text back. */
  lemma {:induction false} SplitFields(s: string)
    ensures forall i :: 0 <= i < |Split(s)| ==> '/' !in Split(s)[i]
    ensures JoinSep(Split(s)) == s
  {
    if s != [] {
      var rest := Split(s[1..]);
      SplitFields(s[1..]);
      assert s == [s[0]] + s[1..];
      var r := Split(s);
      if s[0] == '/' {
        assert r[1..] == rest;
        assert forall i :: 1 <= i < |r| ==> r[i] == rest[i - 1];
      } else {
        assert r[1..] == rest[1..];
        assert |rest| > 1 ==> JoinSep(rest) == rest[0] + "/" + JoinSep(rest[1..]);
        assert forall i :: 1 <= i < |r| ==> r[i] == rest[i];
      }
    }
  }

  /** The components kept from separator-free fields are valid. */
  lemma {:induction false} KeepValidParts(ps: seq<string>)
    requires forall i :: 0 <= i < |ps| ==> '/' !in ps[i]
    ensures forall i :: 0 <= i < |Keep(ps)| ==> ValidPart(Keep(ps)[i])
  {
    if ps != [] {
      KeepValidParts(ps[1..]);
      var head := if ps[0] == "" || ps[0] == "." then [] else [ps[0]];
      assert Keep(ps) == head + Keep(ps[1..]);
      assert forall i :: |head| <= i < |Keep(ps)| ==> Keep(ps)[i] == Keep(ps[1..])[i - |head|];
    }
  }

  /** `rfind` finds the last occurrence: the index holds `c` and nothing after it does. */
  lemma {:induction false} LastIndexOfSpec(s: string, c: char)
    ensures var i := LastIndexOf(s, c);
            && (i >= 0 ==> s[i] == c)
            && (forall j :: i < j < |s| ==> s[j] != c)
  {
    if s != [] && s[|s| - 1] != c {
      LastIndexOfSpec(s[..|s| - 1], c);
    }
  }

  lemma {:induction false} SplitNoSeparator(x: string)
    requires '/' !in x
    ensures Split(x) == [x]
  {
    if x != [] {
      SplitNoSeparator(x[1..]);
      assert x == [x[0]] + x[1..];
    }
  }

  lemma {:induction false} SplitAtFirstSeparator(x: string, y: string)
    requires '/' !in x
    ensures Split(x + "/" + y) == [x] + Split(y)
  {
    var s := x + "/" + y;
    if x == [] {
      assert s[1..] == y;
    } else {
      assert s[1..] == x[1..] + "/" + y;
      SplitAtFirstSeparator(x[1..], y);
      assert x == [x[0]] + x[1..];
    }
  }

  /** Splitting a joined list of separator-free components gives the list back. */
  lemma {:induction false} SplitJoinSep(ps: seq<string>)
    requires |ps| >= 1
    requires forall i :: 0 <= i < |ps| ==> '/' !in ps[i]
    ensures Split(JoinSep(ps)) == ps
  {
    if |ps| == 1 {
      SplitNoSeparator(ps[0]);
    } else {
      SplitJoinSep(ps[1..]);
      SplitAtFirstSeparator(ps[0], JoinSep(ps[1..]));
      assert ps == [ps[0]] + ps[1..];
    }
  }

  lemma {:induction false} KeepAppend(a: seq<string>, b: seq<string>)
    ensures Keep(a + b) == Keep(a) + Keep(b)
  {
    if a == [] {
      assert a + b == b;
    } else {
      assert (a + b)[0] == a[0];
      assert (a + b)[1..] == a[1..] + b;
      KeepAppend(a[1..], b);
    }
  }

  lemma {:induction false} KeepValid(ps: seq<string>)
    requires forall i :: 0 <= i < |ps| ==> ValidPart(ps[i])
    ensures Keep(ps) == ps
  {
    if ps != [] {
      KeepValid(ps[1..]);
      assert ps == [ps[0]] + ps[1..];
    }
  }

  lemma JoinSepStart(ps: seq<string>)
    requires |ps| >= 1 && ps[0] != ""
    ensures |JoinSep(ps)| >= 1 && JoinSep(ps)[0] == ps[0][0]
  {
    if |ps| > 1 {
      assert JoinSep(ps) == ps[0] + ("/" + JoinSep(ps[1..]));
    }
  }

  /** Printing a valid path and parsing the text gives the same path back. */
  lemma ParseStr(p: Path)
    requires Valid(p)
    ensures Parse(Str(p)) == p
  {
    if |p.parts| == 0 {
      ParseBareRoot(p.root);
    } else {
      ParseRootedParts(p);
    }
  }

  lemma ParseBareRoot(root: string)
    requires ValidRoot(root)
    ensures Parse(Str(Path(root, []))) == Path(root, [])
  {
    var s := Str(Path(root, []));
    assert Keep([]) == [];
    assert Keep([""]) == [] by { assert [""][1..] == []; }
    assert Keep(["", ""]) == [] by { assert ["", ""][1..] == [""]; }
    assert Keep(["", "", ""]) == [] by { assert ["", "", ""][1..] == ["", ""]; }
    if root == "" {
      assert s == ".";
      SplitNoSeparator(".");
      assert Keep(["."]) == [] by { assert ["."][1..] == []; }
    } else if root == "/" {
      assert s == "/";
      assert Split(s) == [""] + Split("") by { assert s[1..] == ""; }
      assert Split(s) == ["", ""];
    } else {
      assert s == "//";
      assert Split("/") == [""] + Split("") by { assert "/"[1..] == ""; }
      assert Split(s) == [""] + Split("/") by { assert s[1..] == "/"; }
      assert Split(s) == ["", "", ""];
    }
  }

  lemma ParseRootedParts(p: Path)
    requires Valid(p) && |p.parts| > 0
    ensures Parse(Str(p)) == p
  {
    var j := JoinSep(p.parts);
    JoinSepStart(p.parts);
    SplitJoinSep(p.parts);
    KeepValid(p.parts);
    assert j[0] != '/' by { assert ValidPart(p.parts[0]); }
    var s := Str(p);
    assert s == p.root + j;
    if p.root == "/" {
      assert s == "/" + j;
      SplitAfterSlash(j);
      KeepEmptyFirst(p.parts);
      assert SplitRoot(s) == "/";
    } else if p.root == "//" {
      assert s == "/" + ("/" + j);
      SplitAfterSlash("/" + j);
      SplitAfterSlash(j);
      KeepEmptyFirst([""] + p.parts);
      KeepEmptyFirst(p.parts);
      assert s[2] == j[0];
      assert SplitRoot(s) == "//";
    } else {
      assert s == j;
      assert SplitRoot(s) == "";
    }
  }

  /** A leading slash splits off an empty field. */
  lemma SplitAfterSlash(t: string)
    ensures Split("/" + t) == [""] + Split(t)
  {
    assert ("/" + t)[1..] == t;
  }

  /** An empty field is dropped. */
  lemma KeepEmptyFirst(ps: seq<string>)
    ensures Keep([""] + ps) == Keep(ps)
  {
    assert ([""] + ps)[1..] == ps;
  }

  /** A single valid component parses to the relative path holding just that component. */
  lemma ParseComponent(s: string)
    requires ValidPart(s)
    ensures Parse(s) == Path("", [s])
  {
    SplitNoSeparator(s);
    assert Keep([s]) == [s] by { assert [s][1..] == []; }
  }

  // ---------------------------------------------------------------------------
  // Names, suffixes and stems

  /**
   * A name is its stem followed by its suffix; the suffix is empty or a dot and a
   * non-empty dot-free extension; a non-empty name has a non-empty stem.
   */
  lemma StemSuffix(name: string)
    ensures Stem(name) + Suffix(name) == name
    ensures Suffix(name) == "" || SimpleSuffixOf(Suffix(name))
    ensures name != "" ==> Stem(name) != ""
    ensures '/' !in name ==> '/' !in Stem(name)
  {
    var i := LastIndexOf(name, '.');
    LastIndexOfSpec(name, '.');
    if 0 < i < |name| - 1 {
      assert name == name[..i] + name[i..];
      forall k | 1 <= k < |name[i..]| ensures name[i..][k] != '.' {
        assert name[i..][k] == name[i + k];
      }
      assert '/' !in name ==> '/' !in name[..i] by {
        if '/' in name[..i] {
          var k :| 0 <= k < i && name[..i][k] == '/';
          assert name[k] == '/';
        }
      }
    }
  }

  /** Like SimpleSuffix, without the separator clause (a name has no separator anyway). */
  predicate SimpleSuffixOf(sfx: string) {
    |sfx| >= 2 && sfx[0] == '.' && '.' !in sfx[1..]
  }

  /** Appending a simple suffix to a non-empty stem makes a name with exactly that stem and suffix. */
  lemma StemSuffixOfNewName(stem: string, sfx: string)
    requires stem != "" && SimpleSuffixOf(sfx)
    ensures Suffix(stem + sfx) == sfx
    ensures Stem(stem + sfx) == stem
  {
    var name := stem + sfx;
    var i := LastIndexOf(name, '.');
    LastIndexOfSpec(name, '.');
    assert name[|stem|] == '.';
    assert i >= 0 ==> i < |stem| || name[i] == sfx[i - |stem|];
    assert i == |stem|;
    assert name[i..] == sfx;
    assert name[..i] == stem;
  }

  /** `with_suffix` builds the new name as the stem followed by the new suffix. */
  lemma WithSuffixName(p: Path, sfx: string)
    requires ValidSuffix(sfx) && Name(p) != ""
    ensures var name := Name(p);
            var oldSuffix := Suffix(name);
            (if oldSuffix == "" then name + sfx else name[..|name| - |oldSuffix|] + sfx) == Stem(name) + sfx
  {
    var name := Name(p);
    StemSuffix(name);
    var oldSuffix := Suffix(name);
    if oldSuffix != "" {
      assert name[..|name| - |oldSuffix|] == Stem(name);
    }
  }

  /**
   * On a valid path with at least one component and a valid non-empty suffix, `with_suffix`
   * succeeds, keeps the root and the parent, and renames the last component to
   * its stem followed by the suffix; it fails exactly when there is no component.
   */
  lemma WithSuffixShape(p: Path, sfx: string)
    requires Valid(p) && ValidSuffix(sfx) && sfx != ""
    ensures WithSuffix(p, sfx).Some? <==> |p.parts| > 0
    ensures WithSuffix(p, sfx).Some? ==>
              var r := WithSuffix(p, sfx).value;
              && Valid(r)
              && r.root == p.root
              && Parent(r) == Parent(p)
              && |r.parts| == |p.parts|
              && Name(r) == Stem(Name(p)) + sfx
  {
    if |p.parts| > 0 {
      var name := Name(p);
      assert ValidPart(name);
      WithSuffixName(p, sfx);
      StemSuffix(name);
      var newName := Stem(name) + sfx;
      assert '/' !in newName;
      assert |newName| >= 2;
      assert ValidPart(newName);
      var r := WithSuffix(p, sfx).value;
      assert r.parts == p.parts[..|p.parts| - 1] + [newName];
      assert r.parts[..|r.parts| - 1] == p.parts[..|p.parts| - 1];
      forall i | 0 <= i < |r.parts| ensures ValidPart(r.parts[i]) {
        if i < |r.parts| - 1 {
          assert r.parts[i] == p.parts[i];
        }
      }
    }
  }

  /**
   * Replacing a simple suffix twice is the same as replacing it once with the
   * second: the result keeps the stem and differs only in its suffix.
   */
  lemma WithSuffixTwice(p: Path, a: string, b: string)
    requires Valid(p) && |p.parts| > 0 && SimpleSuffix(a) && SimpleSuffix(b)
    ensures WithSuffix(p, a).Some? && WithSuffix(p, b).Some?
    ensures WithSuffix(WithSuffix(p, a).value, b) == WithSuffix(p, b)
    ensures Suffix(Name(WithSuffix(p, a).value)) == a
    ensures Stem(Name(WithSuffix(p, a).value)) == Stem(Name(p))
  {
    WithSuffixShape(p, a);
    WithSuffixShape(p, b);
    var pa := WithSuffix(p, a).value;
    StemSuffix(Name(p));
    StemSuffixOfNewName(Stem(Name(p)), a);
    WithSuffixShape(pa, b);
    var pab := WithSuffix(pa, b).value;
    var pb := WithSuffix(p, b).value;
    assert pab.parts == Parent(pab).parts + [Name(pab)];
    assert pb.parts == Parent(pb).parts + [Name(pb)];
  }

  // ---------------------------------------------------------------------------
  // Relative paths and joining

  /**
   * `relative_to` and `/` are inverse: `p.relative_to(base)` is the relative path
   * `r` exactly when `base / r` is `p`.
   */
  lemma RelativeToJoin(p: Path, base: Path, r: Path)
    ensures RelativeTo(p, base) == Some(r) <==> (r.root == "" && JoinPaths(base, r) == p)
  {
    var n := |base.parts|;
    if r.root == "" && JoinPaths(base, r) == p {
      assert p.parts[..n] == base.parts;
      assert p.parts[n..] == r.parts;
    }
  }

  /** `with_suffix` renames the last component `stem + oldSfx` of `dir` to `stem + sfx`. */
  lemma WithSuffixReplaces(root: string, dir: seq<string>, stem: string, oldSfx: string, sfx: string)
    requires Valid(Path(root, dir + [stem + oldSfx])) && stem != "" && SimpleSuffixOf(oldSfx) && SimpleSuffix(sfx)
    ensures WithSuffix(Path(root, dir + [stem + oldSfx]), sfx) == Some(Path(root, dir + [stem + sfx]))
  {
    var p := Path(root, dir + [stem + oldSfx]);
    StemSuffixOfNewName(stem, oldSfx);
    assert Name(p) == stem + oldSfx;
    assert Parent(p).parts == dir;
    WithSuffixShape(p, sfx);
    var r := WithSuffix(p, sfx).value;
    assert r.parts == Parent(r).parts + [Name(r)];
  }

  /**
   * Giving a path a one-dot suffix makes a sibling: same parent, same stem,
   * the new suffix; when the old suffix was a different one, a different path.
   */
  lemma WithSuffixSibling(p: Path, sfx: string)
    requires Valid(p) && |p.parts| > 0 && SimpleSuffix(sfx)
    ensures WithSuffix(p, sfx).Some?
    ensures var q := WithSuffix(p, sfx).value;
            && Parent(q) == Parent(p)
            && Stem(Name(q)) == Stem(Name(p))
            && Suffix(Name(q)) == sfx
            && (Suffix(Name(p)) != sfx ==> q != p)
  {
    WithSuffixShape(p, sfx);
    assert ValidPart(Name(p));
    StemSuffix(Name(p));
    StemSuffixOfNewName(Stem(Name(p)), sfx);
  }

  /** `with_suffix` acts on the last component only, so it commutes with putting a base in front. */
  lemma WithSuffixJoin(base: Path, r: Path, sfx: string)
    requires r.root == "" && |r.parts| > 0
    ensures WithSuffix(JoinPaths(base, r), sfx) ==
              if WithSuffix(r, sfx).None? then None else Some(JoinPaths(base, WithSuffix(r, sfx).value))
  {
    var j := JoinPaths(base, r);
    assert Name(j) == Name(r);
    assert j.parts[..|j.parts| - 1] == base.parts + r.parts[..|r.parts| - 1];
    if WithSuffix(r, sfx).Some? {
      var name := Name(r);
      var oldSuffix := Suffix(name);
      var newName := if oldSuffix == "" then name + sfx else name[..|name| - |oldSuffix|] + sfx;
      assert WithSuffix(r, sfx).value.parts == r.parts[..|r.parts| - 1] + [newName];
      assert WithSuffix(j, sfx).value.parts == j.parts[..|j.parts| - 1] + [newName];
      assert j.parts[..|j.parts| - 1] + [newName] == base.parts + (r.parts[..|r.parts| - 1] + [newName]);
    }
  }

  /** Appending a relative path with components keeps its name and appends its parent. */
  lemma JoinLast(a: Path, b: Path)
    requires b.root == "" && |b.parts| > 0
    ensures var j := JoinPaths(a, b);
            && Name(j) == Name(b)
            && Parent(j) == JoinPaths(a, Parent(b))
            && j.parts == a.parts + Parent(b).parts + [Name(b)]
  {
    var j := JoinPaths(a, b);
    assert b.parts == Parent(b).parts + [Name(b)];
    assert j.parts[..|j.parts| - 1] == a.parts + Parent(b).parts;
  }

  /** Appending a valid relative path to a valid path gives a valid path. */
  lemma JoinValid(a: Path, b: Path)
    requires Valid(a) && Valid(b) && b.root == ""
    ensures Valid(JoinPaths(a, b))
  {
    var j := JoinPaths(a, b);
    forall i | 0 <= i < |j.parts| ensures ValidPart(j.parts[i]) {
      if i < |a.parts| { assert j.parts[i] == a.parts[i]; } else { assert j.parts[i] == b.parts[i - |a.parts|]; }
    }
  }

  /** A path obtained by `relative_to` from a valid path is valid and relative. */
  lemma RelativeToValid(p: Path, base: Path)
    requires Valid(p) && RelativeTo(p, base).Some?
    ensures Valid(RelativeTo(p, base).value) && RelativeTo(p, base).value.root == ""
  {
    var n := |base.parts|;
    var r := RelativeTo(p, base).value;
    forall i | 0 <= i < |r.parts| ensures ValidPart(r.parts[i]) {
      assert r.parts[i] == p.parts[n + i];
    }
  }
  // ---------------------------------------------------------------------------
  // Resolution of ".." (what the operating system does with the path; pathlib
  // itself leaves ".." in place)

  /**
   * The components a path names once ".." is resolved: each ".." removes the
   * component before it; at the start of an absolute path it is dropped
   * ("/.." is "/"), at the start of a relative one it stays. Symbolic links
   * are not followed.
   */
  function ResolveParts(absolute: bool, ps: seq<string>): seq<string> {
    if ps == [] then []
    else
      var r := ResolveParts(absolute, ps[..|ps| - 1]);
      var x := ps[|ps| - 1];
      if x != ".." then r + [x]
      else if r != [] && r[|r| - 1] != ".." then r[..|r| - 1]
      else if absolute then r
      else r + [".."]
  }

  /** The path with ".." resolved. */
  function Resolved(p: Path): Path {
    Path(p.root, ResolveParts(p.root != "", p.parts))
  }

  /** Components without ".." are appended unchanged by resolution. */
  lemma {:induction false} ResolveAppendPlain(absolute: bool, a: seq<string>, b: seq<string>)
    requires ".." !in b
    ensures ResolveParts(absolute, a + b) == ResolveParts(absolute, a) + b
  {
    if b == [] {
      assert a + b == a;
    } else {
      var m := |b| - 1;
      assert (a + b)[..|a + b| - 1] == a + b[..m];
      assert (a + b)[|a + b| - 1] == b[m];
      assert ".." !in b[..m] by {
        forall k | 0 <= k < m ensures b[..m][k] != ".." { assert b[..m][k] == b[k]; }
      }
      ResolveAppendPlain(absolute, a, b[..m]);
      assert b == b[..m] + [b[m]];
    }
  }

  /** Putting a relative path without ".." after a base commutes with resolution. */
  lemma ResolvedJoin(base: Path, r: Path)
    requires r.root == "" && ".." !in r.parts
    ensures Resolved(JoinPaths(base, r)) == Path(base.root, Resolved(base).parts + r.parts)
  {
    ResolveAppendPlain(base.root != "", base.parts, r.parts);
  }

  /**
   * Below a common base, relative paths without ".." name the same file
   * exactly when they are the same path.
   */
  lemma ResolvedJoinInjective(base: Path, r1: Path, r2: Path)
    requires r1.root == "" && ".." !in r1.parts
    requires r2.root == "" && ".." !in r2.parts
    ensures Resolved(JoinPaths(base, r1)) == Resolved(JoinPaths(base, r2)) <==> JoinPaths(base, r1) == JoinPaths(base, r2)
  {
    ResolvedJoin(base, r1);
    ResolvedJoin(base, r2);
    var rb := Resolved(base).parts;
    if Resolved(JoinPaths(base, r1)) == Resolved(JoinPaths(base, r2)) {
      assert r1.parts == (rb + r1.parts)[|rb|..];
      assert r2.parts == (rb + r2.parts)[|rb|..];
    }
  }

  /** A path without ".." stays without ".." relative to any base. */
  lemma RelativeToPlain(p: Path, base: Path)
    requires ".." !in p.parts && RelativeTo(p, base).Some?
    ensures ".." !in RelativeTo(p, base).value.parts
  {
    var n := |base.parts|;
    var r := RelativeTo(p, base).value;
    forall k | 0 <= k < |r.parts| ensures r.parts[k] != ".." {
      assert r.parts[k] == p.parts[n + k];
    }
  }

  /** Giving a path without ".." a one-dot suffix keeps it free of "..". */
  lemma WithSuffixPlain(rel: Path, sfx: string)
    requires Valid(rel) && |rel.parts| > 0 && SimpleSuffix(sfx) && ".." !in rel.parts
    ensures WithSuffix(rel, sfx).Some?
    ensures WithSuffix(rel, sfx).value.root == rel.root && ".." !in WithSuffix(rel, sfx).value.parts
  {
    WithSuffixShape(rel, sfx);
    SuffixedNameNotDotDot(Stem(Name(rel)), sfx);
    SameParentPlain(WithSuffix(rel, sfx).value, rel);
  }

  /** A name ending in a one-dot suffix is not "..". */
  lemma SuffixedNameNotDotDot(stem: string, sfx: string)
    requires SimpleSuffix(sfx)
    ensures stem + sfx != ".."
  {
    var n := stem + sfx;
    assert n[|n| - 1] == sfx[|sfx| - 1] == sfx[1..][|sfx| - 2];
  }

  /** A path with the parent of a path without "..", and a last component other than "..", holds no "..". */
  lemma SameParentPlain(r: Path, p: Path)
    requires |r.parts| == |p.parts| > 0 && Parent(r) == Parent(p)
    requires ".." !in p.parts && Name(r) != ".."
    ensures ".." !in r.parts
  {
    forall k | 0 <= k < |r.parts| ensures r.parts[k] != ".." {
      if k < |r.parts| - 1 {
        assert r.parts[k] == Parent(r).parts[k] == p.parts[k];
      }
    }
  }
}
