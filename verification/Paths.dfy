/**
 File paths as component sequences, and the lexical test that decides whether a file lies
 inside a directory.
 */
module Paths {
  /** A cleaned absolute path. */
  type Path = seq<string>

  /** A path as a user writes it: components between slashes, possibly relative. */
  datatype RawPath = RawPath(absolute: bool, parts: seq<string>)

  predicate CleanComponent(c: string)
  {
    c != "" && c != "." && c != ".." && '/' !in c
  }

  predicate Clean(p: Path)
  {
    forall i :: 0 <= i < |p| ==> CleanComponent(p[i])
  }

  /** Follow the parts from a base: empty and "." parts stay, ".." goes up and never above the root. */
  function Resolve(base: Path, parts: seq<string>): Path
    decreases |parts|
  {
    if parts == [] then base
    else
      var before := Resolve(base, parts[..|parts| - 1]);
      var c := parts[|parts| - 1];
      if c == "" || c == "." then before
      else if c == ".." then (if before == [] then [] else before[..|before| - 1])
      else before + [c]
  }

  /** filepath.Abs in a working directory. */
  function Abs(cwd: Path, p: RawPath): Path
  {
    Resolve(if p.absolute then [] else cwd, p.parts)
  }

  function CommonLength(a: Path, b: Path): (n: nat)
    ensures n <= |a| && n <= |b| && a[..n] == b[..n]
    ensures n < |a| && n < |b| ==> a[n] != b[n]
  {
    if a == [] || b == [] || a[0] != b[0] then 0
    else
      assert a == [a[0]] + a[1..] && b == [b[0]] + b[1..];
      1 + CommonLength(a[1..], b[1..])
  }

  /** filepath.Rel between absolute paths: up to the common ancestor, then down. */
  function Rel(base: Path, target: Path): seq<string>
  {
    if base == target then ["."]
    else
      var n := CommonLength(base, target);
      Ups(|base| - n) + target[n..]
  }

  function Ups(n: nat): seq<string>
  {
    if n == 0 then [] else Ups(n - 1) + [".."]
  }

  function SlashJoined(parts: seq<string>): string
  {
    if parts == [] then "" else if |parts| == 1 then parts[0] else parts[0] + "/" + SlashJoined(parts[1..])
  }

  predicate HasPrefix(s: string, prefix: string)
  {
    prefix <= s
  }

  /** isSubDir: the relative path neither starts with two dots nor is absolute. */
  predicate IsSubDir(cwd: Path, src: RawPath, dir: RawPath)
  {
    var rel := SlashJoined(Rel(Abs(cwd, dir), Abs(cwd, src)));
    !HasPrefix(rel, "..") && !HasPrefix(rel, "/")
  }

  // ---- Abs is clean ----

  lemma {:induction false} ResolveIsClean(base: Path, parts: seq<string>)
    requires Clean(base) && forall i :: 0 <= i < |parts| ==> '/' !in parts[i]
    ensures Clean(Resolve(base, parts))
    decreases |parts|
  {
    if parts != [] {
      ResolveIsClean(base, parts[..|parts| - 1]);
    }
  }

  /** Clean components only lead down. */
  lemma {:induction false} ResolveDown(base: Path, parts: seq<string>)
    requires Clean(parts)
    ensures Resolve(base, parts) == base + parts
    decreases |parts|
  {
    if parts != [] {
      ResolveDown(base, parts[..|parts| - 1]);
      assert CleanComponent(parts[|parts| - 1]);
      assert base + parts == base + parts[..|parts| - 1] + [parts[|parts| - 1]];
    }
  }

  lemma {:induction false} ResolveAppend(base: Path, first: seq<string>, second: seq<string>)
    ensures Resolve(base, first + second) == Resolve(Resolve(base, first), second)
    decreases |second|
  {
    if second == [] {
      assert first + second == first;
    } else {
      var n := |second| - 1;
      ResolveAppend(base, first, second[..n]);
      assert (first + second)[..|first + second| - 1] == first + second[..n];
    }
  }

  lemma {:induction false} ResolveUp(base: Path, n: nat)
    requires n <= |base|
    ensures Resolve(base, Ups(n)) == base[..|base| - n]
    decreases n
  {
    if n > 0 {
      ResolveUp(base, n - 1);
      assert Ups(n)[..|Ups(n)| - 1] == Ups(n - 1);
    }
  }

  lemma {:induction false} UpsHead(n: nat)
    requires n > 0
    ensures |Ups(n)| == n && Ups(n)[0] == ".."
  {
    if n > 1 { UpsHead(n - 1); }
  }

  /** Following the relative path from the directory leads back to the target. */
  lemma RelRoundTrip(base: Path, target: Path)
    requires Clean(target)
    ensures Resolve(base, Rel(base, target)) == target
  {
    if base == target {
      StayHere(base);
    } else {
      ResolveRest(target, CommonLength(base, target));
      UpAndDown(base, target, CommonLength(base, target));
    }
  }

  lemma StayHere(base: Path)
    ensures Resolve(base, ["."]) == base
  {
    assert ["."][..0] == [];
  }

  lemma UpAndDown(base: Path, target: Path, n: nat)
    requires n <= |base| && n <= |target| && base[..n] == target[..n]
    requires Resolve(target[..n], target[n..]) == target
    ensures Resolve(base, Ups(|base| - n) + target[n..]) == target
  {
    UpTo(base, n);
    FollowBoth(base, Ups(|base| - n), target[n..], target[..n], target);
  }

  lemma UpTo(base: Path, n: nat)
    requires n <= |base|
    ensures Resolve(base, Ups(|base| - n)) == base[..n]
  {
    ResolveUp(base, |base| - n);
  }

  lemma FollowBoth(base: Path, first: seq<string>, second: seq<string>, middle: Path, target: Path)
    requires Resolve(base, first) == middle && Resolve(middle, second) == target
    ensures Resolve(base, first + second) == target
  {
    ResolveAppend(base, first, second);
  }

  /** From the common ancestor only the rest of the target is left. */
  lemma ResolveRest(target: Path, n: nat)
    requires Clean(target) && n <= |target|
    ensures Resolve(target[..n], target[n..]) == target
  {
    var front, rest := target[..n], target[n..];
    assert Clean(rest) by {
      forall i | 0 <= i < |rest| ensures CleanComponent(rest[i]) { assert rest[i] == target[n + i]; }
    }
    ResolveDown(front, rest);
    assert front + rest == target;
  }

  // ---- What IsSubDir decides ----

  lemma JoinedHead(parts: seq<string>)
    requires |parts| > 0 && parts[0] != "" && '/' !in parts[0]
    ensures HasPrefix(SlashJoined(parts), "..") <==> HasPrefix(parts[0], "..")
    ensures !HasPrefix(SlashJoined(parts), "/")
  {
    var s := SlashJoined(parts);
    assert parts[0] <= s;
    assert s[0] == parts[0][0];
    if |parts[0]| == 1 && |s| > 1 {
      assert s[1] == '/';
    }
  }

  /**
   For all paths: the test holds exactly when the directory is a component prefix of the file and
   the component after it, if any, does not itself start with two dots.
   */
  lemma IsSubDirExact(cwd: Path, src: RawPath, dir: RawPath)
    requires Clean(cwd)
    requires forall i :: 0 <= i < |src.parts| ==> '/' !in src.parts[i]
    requires forall i :: 0 <= i < |dir.parts| ==> '/' !in dir.parts[i]
    ensures var s, d := Abs(cwd, src), Abs(cwd, dir);
      IsSubDir(cwd, src, dir) <==> d <= s && (|d| < |s| ==> !HasPrefix(s[|d|], ".."))
  {
    ResolveIsClean(if src.absolute then [] else cwd, src.parts);
    ResolveIsClean(if dir.absolute then [] else cwd, dir.parts);
    RelDecides(Abs(cwd, src), Abs(cwd, dir));
  }

  /** The first component of the relative path decides. */
  lemma RelDecides(s: Path, d: Path)
    requires Clean(s) && Clean(d)
    ensures var rel := SlashJoined(Rel(d, s));
      !HasPrefix(rel, "..") && !HasPrefix(rel, "/") <==> d <= s && (|d| < |s| ==> !HasPrefix(s[|d|], ".."))
  {
    var rel, n := Rel(d, s), CommonLength(d, s);
    if d == s {
      JoinedHead(rel);
    } else if n == |d| {
      assert d <= s;
      assert rel == s[n..] && CleanComponent(s[n]);
      JoinedHead(rel);
    } else {
      UpsHead(|d| - n);
      assert rel[0] == "..";
      JoinedHead(rel);
      if n < |s| { assert d[n] != s[n]; }
      assert !(d <= s);
    }
  }

  /** The test on paths that are clean and absolute already. */
  lemma IsSubDirOfClean(cwd: Path, src: Path, dir: Path)
    requires Clean(cwd) && Clean(src) && Clean(dir)
    ensures IsSubDir(cwd, RawPath(true, src), RawPath(true, dir)) <==>
      dir <= src && (|dir| < |src| ==> !HasPrefix(src[|dir|], ".."))
  {
    ResolveDown([], src);
    ResolveDown([], dir);
    assert [] + src == src && [] + dir == dir;
    forall i | 0 <= i < |src| ensures '/' !in src[i] { assert CleanComponent(src[i]); }
    forall i | 0 <= i < |dir| ensures '/' !in dir[i] { assert CleanComponent(dir[i]); }
    IsSubDirExact(cwd, RawPath(true, src), RawPath(true, dir));
  }

  /** A file whose name starts with two dots is not recognised as lying in its own directory. */
  lemma DottedNameIsMissed(cwd: Path)
    requires Clean(cwd)
    ensures !IsSubDir(cwd, RawPath(true, ["a", "..b"]), RawPath(true, ["a"]))
  {
    IsSubDirOfClean(cwd, ["a", "..b"], ["a"]);
  }
}
