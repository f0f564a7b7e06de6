/**
  `assertWithinCwd`: lexical containment of a write target in the working
  directory.  Go's `filepath` is modelled for slash-separated paths, by components.
*/
module PathContainment {
  import opened Wrappers
  import opened Strings

  const SLASH := '/'
  const DOT := "."
  const UP := ".."

  predicate IsAbs(path: string) {
    path != "" && path[0] == SLASH
  }

  /** A component that stands for a name. */
  predicate IsName(part: string) {
    part != "" && part != DOT && part != UP && SLASH !in part
  }

  ghost predicate AllNames(parts: seq<string>) {
    forall i :: 0 <= i < |parts| ==> IsName(parts[i])
  }

  function FollowOne(at: seq<string>, part: string): seq<string> {
    if part == "" || part == DOT then at
    else if part == UP then (if at == [] then [] else at[..|at| - 1])
    else at + [part]
  }

  /** Where a walk along `parts` ends that starts at the directory `at`; above the root there is only the root. */
  function Follow(at: seq<string>, parts: seq<string>): seq<string>
    decreases |parts|
  {
    if parts == [] then at else Follow(FollowOne(at, parts[0]), parts[1..])
  }

  /** `filepath.Clean` of an absolute path, as its components. */
  function Clean(path: string): seq<string> {
    Follow([], Split(path, SLASH))
  }

  /** The path that has these components. */
  function Render(parts: seq<string>): string {
    [SLASH] + Join(parts, SLASH)
  }

  /** `filepath.Abs`, with the process's working directory as a parameter; it fails when that is unknown. */
  function Abs(path: string, workingDir: Option<string>): Option<seq<string>> {
    if IsAbs(path) then Some(Clean(path))
    else if workingDir.None? then None
    else Some(Clean(workingDir.value + [SLASH] + path))
  }

  function Shared(base: seq<string>, target: seq<string>): (n: nat)
    ensures n <= |base| && n <= |target| && base[..n] == target[..n]
    ensures n < |base| && n < |target| ==> base[n] != target[n]
  {
    if base == [] || target == [] || base[0] != target[0] then 0
    else
      var n := Shared(base[1..], target[1..]);
      assert base[..n + 1] == [base[0]] + base[1..][..n];
      assert target[..n + 1] == [target[0]] + target[1..][..n];
      1 + n
  }

  function Ups(n: nat): seq<string> {
    seq(n, _ => UP)
  }

  /** `filepath.Rel` between two clean absolute paths: up from the base, then down to the target. */
  function Rel(base: seq<string>, target: seq<string>): string {
    if base == target then DOT
    else
      var n := Shared(base, target);
      Join(Ups(|base| - n) + target[n..], SLASH)
  }

  predicate LeavesBase(rel: string) {
    rel == UP || HasPrefix(rel, UP + [SLASH])
  }

  datatype Verdict = Within | NoCwd | NotAbsolute | CwdUnresolved | Escapes

  function AssertWithinCwd(target: string, cwd: string, workingDir: Option<string>): Verdict {
    if cwd == "" then NoCwd
    else if !IsAbs(target) then NotAbsolute
    else
      var absCwd := Abs(cwd, workingDir);
      if absCwd.None? then CwdUnresolved
      else
        var rel := Rel(absCwd.value, Clean(target));
        if LeavesBase(rel) then Escapes else Within
  }

  // ----- walking

  lemma {:induction false} FollowNames(at: seq<string>, parts: seq<string>)
    requires AllNames(at)
    requires forall i :: 0 <= i < |parts| ==> SLASH !in parts[i]
    ensures AllNames(Follow(at, parts))
    decreases |parts|
  {
    if parts != [] {
      FollowNames(FollowOne(at, parts[0]), parts[1..]);
    }
  }

  lemma CleanNames(path: string)
    ensures AllNames(Clean(path))
  {
    SplitParts(path, SLASH);
    FollowNames([], Split(path, SLASH));
  }

  lemma {:induction false} FollowConcat(at: seq<string>, a: seq<string>, b: seq<string>)
    ensures Follow(at, a + b) == Follow(Follow(at, a), b)
    decreases |a|
  {
    if a == [] {
      assert a + b == b;
    } else {
      assert (a + b)[1..] == a[1..] + b;
      FollowConcat(FollowOne(at, a[0]), a[1..], b);
    }
  }

  lemma {:induction false} FollowDown(at: seq<string>, parts: seq<string>)
    requires AllNames(parts)
    ensures Follow(at, parts) == at + parts
    decreases |parts|
  {
    if parts != [] {
      FollowDown(at + [parts[0]], parts[1..]);
      assert at + [parts[0]] + parts[1..] == at + parts;
    }
  }

  lemma {:induction false} FollowUp(at: seq<string>, n: nat)
    requires n <= |at|
    ensures Follow(at, Ups(n)) == at[..|at| - n]
  {
    if n > 0 {
      assert Ups(n)[1..] == Ups(n - 1);
      FollowUp(at[..|at| - 1], n - 1);
    }
  }

  // ----- what the library functions mean

  /** Cleaning is a projection: a clean path is its own clean form. */
  lemma CleanRender(parts: seq<string>)
    requires AllNames(parts)
    ensures Clean(Render(parts)) == parts && IsAbs(Render(parts))
  {
    var path := Render(parts);
    assert path[1..] == Join(parts, SLASH);
    assert Split(path, SLASH) == [""] + Split(path[1..], SLASH);
    assert ([""] + Split(path[1..], SLASH))[1..] == Split(path[1..], SLASH);
    if parts == [] {
      assert Follow([], [""]) == [];
    } else {
      SplitJoin(parts, SLASH);
      FollowDown([], parts);
      assert [] + parts == parts;
    }
  }

  // ----- what cleaning makes of the text of a path

  lemma CleanMore(path: string, part: string)
    requires '/' !in part
    ensures Clean(path + "/" + part) == FollowOne(Clean(path), part)
  {
    SplitConcat(path, SLASH, part);
    SplitWhole(part, SLASH);
    FollowConcat([], Split(path, SLASH), [part]);
    assert [part][1..] == [];
    assert Follow(FollowOne(Clean(path), part), []) == FollowOne(Clean(path), part);
  }

  /**
    A slash and a name go one down, `/..` goes one up, and at the root nowhere; `/.` and a slash alone
    go nowhere.  The root itself has no components.
  */
  lemma CleanTexts(path: string, name: string)
    ensures Clean("/") == []
    ensures name != "" && name != "." && name != ".." && '/' !in name ==>
              Clean(path + "/" + name) == Clean(path) + [name]
    ensures Clean(path + "/..") == if Clean(path) == [] then [] else Clean(path)[..|Clean(path)| - 1]
    ensures Clean(path + "/.") == Clean(path) && Clean(path + "/") == Clean(path)
  {
    assert path + "/.." == path + "/" + ".." && path + "/." == path + "/" + "." && path + "/" == path + "/" + "";
    CleanMore(path, UP);
    CleanMore(path, DOT);
    CleanMore(path, "");
    if IsName(name) {
      CleanMore(path, name);
    }
    RootClean();
  }

  lemma RootClean()
    ensures Clean("/") == []
  {
    assert Split("", SLASH) == [""] && [""][1..] == [];
    assert Clean("") == Follow(FollowOne([], ""), []) == [];
    CleanMore("", "");
    assert "" + "/" + "" == "/";
  }

  lemma {:induction false} UpThenDown(base: seq<string>, target: seq<string>, n: nat)
    requires n <= |base| && n <= |target| && base[..n] == target[..n] && AllNames(target)
    ensures Follow(base, Ups(|base| - n) + target[n..]) == target
  {
    FollowConcat(base, Ups(|base| - n), target[n..]);
    FollowUp(base, |base| - n);
    assert base[..|base| - (|base| - n)] == target[..n];
    FollowDown(target[..n], target[n..]);
    assert target[..n] + target[n..] == target;
  }

  /** A walk along the relative path leads from the base to the target. */
  lemma {:induction false} RelLeadsToTarget(base: seq<string>, target: seq<string>)
    requires AllNames(base) && AllNames(target)
    ensures Follow(base, Split(Rel(base, target), SLASH)) == target
  {
    if base == target {
      StayHere(base);
    } else {
      var n := Shared(base, target);
      var parts := Ups(|base| - n) + target[n..];
      UpThenDown(base, target, n);
      RelParts(base, target, n);
      PartsKept(parts);
      assert Rel(base, target) == Join(parts, SLASH);
    }
  }

  /** None of its parts holds a slash, and there is one. */
  lemma RelParts(base: seq<string>, target: seq<string>, n: nat)
    requires base != target && n <= |base| && n <= |target| && base[..n] == target[..n] && AllNames(target)
    ensures var parts := Ups(|base| - n) + target[n..];
            parts != [] && forall i :: 0 <= i < |parts| ==> SLASH !in parts[i]
  {
    var ups, down := Ups(|base| - n), target[n..];
    assert base == base[..n] + base[n..] && target == target[..n] + target[n..];
    forall i | 0 <= i < |ups + down| ensures SLASH !in (ups + down)[i] {
      if i < |ups| {
        assert (ups + down)[i] == UP;
      } else {
        assert (ups + down)[i] == target[n + i - |ups|];
        assert IsName(target[n + i - |ups|]);
      }
    }
  }

  /** Splitting a relative path at its slashes gives its parts back. */
  lemma PartsKept(parts: seq<string>)
    requires parts != [] && forall i :: 0 <= i < |parts| ==> SLASH !in parts[i]
    ensures Split(Join(parts, SLASH), SLASH) == parts
  {
    SplitJoin(parts, SLASH);
  }

  lemma StayHere(base: seq<string>)
    ensures Follow(base, Split(DOT, SLASH)) == base
  {
    SplitJoin([DOT], SLASH);
    assert Join([DOT], SLASH) == DOT;
    assert Follow(base, [DOT]) == base;
  }

  // ----- the verdict

  lemma JoinStarts(parts: seq<string>)
    requires parts != []
    ensures var rel := Join(parts, SLASH);
            if |parts| == 1 then rel == parts[0]
            else HasPrefix(rel, parts[0] + [SLASH])
  {
  }

  /** The textual test on the relative path asks whether its first component is `..`. */
  lemma EscapeTest(parts: seq<string>)
    requires parts != [] && SLASH !in parts[0]
    ensures var rel := Join(parts, SLASH);
            LeavesBase(rel) <==> parts[0] == UP
  {
    var rel, first := Join(parts, SLASH), parts[0];
    JoinStarts(parts);
    if |parts| > 1 {
      assert rel[|first|] == (first + [SLASH])[|first|] == SLASH;
      assert forall i :: 0 <= i < |first| ==> rel[i] == first[i];
    }
    if HasPrefix(rel, UP + [SLASH]) {
      assert rel[2] == (UP + [SLASH])[2] == SLASH && rel[0] == UP[0] && rel[1] == UP[1];
    }
  }

  /** The relative path starts with `..` exactly when the base is not above the target. */
  lemma {:induction false} RelStarts(base: seq<string>, target: seq<string>)
    requires AllNames(target) && base != target
    ensures var n := Shared(base, target);
            var parts := Ups(|base| - n) + target[n..];
            parts != [] && SLASH !in parts[0] && (parts[0] == UP <==> !(base <= target))
  {
    var n := Shared(base, target);
    var ups, down := Ups(|base| - n), target[n..];
    if n < |base| {
      assert (ups + down)[0] == UP;
      assert n < |target| ==> base[n] != target[n];
    } else {
      assert base[..n] == base;
      assert (ups + down)[0] == target[n];
      assert IsName(target[n]);
    }
  }

  lemma RelLeavesBase(base: seq<string>, target: seq<string>)
    requires AllNames(target)
    ensures LeavesBase(Rel(base, target)) <==> !(base <= target)
  {
    if base == target {
      assert |DOT| == 1 && |UP| == 2;
    } else {
      var n := Shared(base, target);
      RelStarts(base, target);
      EscapeTest(Ups(|base| - n) + target[n..]);
    }
  }

  /**
    A target is accepted exactly when there is a working directory to compare with, the target
    is absolute, and the directory's components are the first components of the target.
  */
  lemma AcceptsExactlyInside(target: string, cwd: string, workingDir: Option<string>)
    ensures AssertWithinCwd(target, cwd, workingDir) == Within <==>
            && cwd != "" && target != "" && target[0] == '/'
            && Abs(cwd, workingDir).Some?
            && Abs(cwd, workingDir).value <= Clean(target)
  {
    CleanNames(target);
    if Abs(cwd, workingDir).Some? {
      RelLeavesBase(Abs(cwd, workingDir).value, Clean(target));
    }
  }

  /**
    The other refusals: no directory, a target that does not start at the root, a directory that cannot
    be resolved.
  */
  lemma RefusalsExactly(target: string, cwd: string, workingDir: Option<string>)
    ensures var verdict := AssertWithinCwd(target, cwd, workingDir);
            && (verdict == NoCwd <==> cwd == "")
            && (verdict == NotAbsolute <==> cwd != "" && (target == "" || target[0] != '/'))
            && (verdict == CwdUnresolved <==>
                  cwd != "" && cwd[0] != '/' && target != "" && target[0] == '/' && workingDir.None?)
  {
  }

  /** The verdict on an absolute target and an absolute directory. */
  lemma VerdictOnAbsolute(target: string, cwd: string, workingDir: Option<string>)
    requires IsAbs(target) && IsAbs(cwd)
    ensures AssertWithinCwd(target, cwd, workingDir) == if Clean(cwd) <= Clean(target) then Within else Escapes
  {
    CleanNames(target);
    RelLeavesBase(Clean(cwd), Clean(target));
  }

  /**
    `..` in the target is resolved before the test: next to the directory only the directory itself
    can be named, and going down and up again stays inside, but not twice.
  */
  lemma UpInTarget(path: string, dir: string, name: string, down: string, workingDir: Option<string>)
    requires IsAbs(path) && IsName(dir) && IsName(name) && IsName(down)
    ensures var cwd := path + "/" + dir;
            && AssertWithinCwd(cwd + "/../" + name, cwd, workingDir) == (if name == dir then Within else Escapes)
            && AssertWithinCwd(cwd + "/" + down + "/../" + name, cwd, workingDir) == Within
            && AssertWithinCwd(cwd + "/" + down + "/../../" + name, cwd, workingDir) ==
                 (if name == dir then Within else Escapes)
            && AssertWithinCwd(cwd + "/..", cwd, workingDir) == Escapes
            && AssertWithinCwd(cwd, cwd, workingDir) == Within
  {
    var cwd := path + "/" + dir;
    CleanTexts(path, dir);
    UpThenName(cwd, name);
    CleanTexts(cwd, down);
    UpThenName(cwd + "/" + down, name);
    CleanTexts(cwd + "/" + down, "");
    var twice := cwd + "/" + down + "/..";
    UpThenName(twice, name);
    assert cwd + "/" + down + "/../../" + name == twice + "/../" + name;
    Siblings(Clean(path), dir, name);
    Shorter(Clean(path), dir);
    VerdictOnAbsolute(cwd + "/../" + name, cwd, workingDir);
    VerdictOnAbsolute(cwd + "/" + down + "/../" + name, cwd, workingDir);
    VerdictOnAbsolute(cwd + "/" + down + "/../../" + name, cwd, workingDir);
    VerdictOnAbsolute(cwd + "/..", cwd, workingDir);
    VerdictOnAbsolute(cwd, cwd, workingDir);
  }

  /** One up and then down to a name. */
  lemma UpThenName(path: string, name: string)
    requires IsName(name)
    ensures Clean(path + "/../" + name) ==
            (if Clean(path) == [] then [] else Clean(path)[..|Clean(path)| - 1]) + [name]
  {
    CleanTexts(path, "");
    CleanTexts(path + "/..", name);
    SlashAfterUp(path, name);
  }

  lemma SlashAfterUp(path: string, name: string)
    ensures path + "/../" + name == (path + "/..") + "/" + name
  {
    assert "/../" == "/.." + "/";
    assert path + ("/.." + "/") == (path + "/..") + "/";
  }

  lemma Siblings(at: seq<string>, dir: string, name: string)
    ensures at + [dir] <= at + [name] <==> name == dir
  {
    assert (at + [dir])[|at|] == dir && (at + [name])[|at|] == name;
  }

  lemma Shorter(at: seq<string>, dir: string)
    ensures (at + [dir])[..|at + [dir]| - 1] == at && !(at + [dir] <= at)
  {
  }

  /**
    `..` in the directory is resolved too, and a directory that is not absolute is taken from the
    process's own working directory; without one nothing is let through.
  */
  lemma UpInDirectory(path: string, dir: string, name: string, relative: string, workingDir: string)
    requires IsAbs(path) && IsName(dir) && IsName(name) && IsAbs(workingDir)
    requires relative != "" && relative[0] != '/'
    ensures AssertWithinCwd(path + "/" + name, path + "/" + dir + "/..", None) == Within
    ensures AssertWithinCwd(path + "/" + name, path + "/" + dir + "/../" + dir, None) ==
              if name == dir then Within else Escapes
    ensures AssertWithinCwd(workingDir + "/" + relative + "/" + name, relative, Some(workingDir)) == Within
    ensures AssertWithinCwd(path + "/" + name, relative, None) == CwdUnresolved
  {
    CleanTexts(path, dir);
    CleanTexts(path, name);
    CleanTexts(path + "/" + dir, "");
    UpThenName(path + "/" + dir, dir);
    Shorter(Clean(path), dir);
    Siblings(Clean(path), dir, name);
    VerdictOnAbsolute(path + "/" + name, path + "/" + dir + "/..", None);
    VerdictOnAbsolute(path + "/" + name, path + "/" + dir + "/../" + dir, None);
    BelowRelative(workingDir, relative, name);
  }

  lemma BelowRelative(workingDir: string, relative: string, name: string)
    requires IsAbs(workingDir) && relative != "" && relative[0] != '/' && IsName(name)
    ensures AssertWithinCwd(workingDir + "/" + relative + "/" + name, relative, Some(workingDir)) == Within
  {
    var target := workingDir + "/" + relative + "/" + name;
    CleanTexts(workingDir + "/" + relative, name);
    CleanNames(target);
    RelLeavesBase(Clean(workingDir + "/" + relative), Clean(target));
  }

  /**
    Names decide, not strings: a sibling whose name extends the directory's is outside, and a name that
    begins with two dots is inside.
  */
  lemma NamesDecide(dir: seq<string>, name: string, more: string, workingDir: Option<string>)
    requires AllNames(dir) && IsName(name) && more != "" && SLASH !in more
    ensures AssertWithinCwd(Render(dir + [name + more]), Render(dir + [name]), workingDir) == Escapes
    ensures AssertWithinCwd(Render(dir + [UP + more]), Render(dir), workingDir) == Within
  {
    assert (name + more)[0] == name[0] && name == [name[0]] + name[1..];
    CleanRender(dir);
    CleanRender(dir + [name]);
    CleanRender(dir + [name + more]);
    CleanRender(dir + [UP + more]);
    assert (dir + [name + more])[|dir|] != (dir + [name])[|dir|];
    AcceptsExactlyInside(Render(dir + [name + more]), Render(dir + [name]), workingDir);
    AcceptsExactlyInside(Render(dir + [UP + more]), Render(dir), workingDir);
  }
}
