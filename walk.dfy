/** Which directories the walk descends into and which files it analyses.
    Paths use `/` as the separator; `Base` and `Ext` follow `filepath.Base`
    and `filepath.Ext` on such paths. */
module Walk {
  import Glob

  /** What `skipDir` hands back to the directory walk: `nil` (descend) or
      `filepath.SkipDir` (skip the whole subtree). */
  datatype WalkResult = Descend | SkipSubtree

  /** Directories never descended into, whatever the configuration:
      version-control metadata, test fixtures and vendored dependencies. */
  const DeniedDirs: set<string> := {".git", "testdata", "vendor"}

  const GoExt: string := ".go"
  const TestSuffix: string := "_test.go"

  predicate HasSuffix(s: string, suffix: string) {
    |suffix| <= |s| && s[|s| - |suffix|..] == suffix
  }

  /** The path without its trailing separators. */
  function TrimTrailingSeparators(path: string): (r: string)
    ensures |r| <= |path| && r == path[..|r|]
    ensures r == [] || r[|r| - 1] != Glob.Separator
    ensures forall i :: |r| <= i < |path| ==> path[i] == Glob.Separator
  {
    if path != [] && path[|path| - 1] == Glob.Separator then TrimTrailingSeparators(path[..|path| - 1])
    else path
  }

  /** What follows the last separator (all of the path if it has none). */
  function AfterLastSeparator(path: string): (r: string)
    ensures |r| <= |path| && r == path[|path| - |r|..]
    ensures Glob.Separator !in r
    ensures |r| < |path| ==> path[|path| - |r| - 1] == Glob.Separator
  {
    if path == [] || path[|path| - 1] == Glob.Separator then []
    else AfterLastSeparator(path[..|path| - 1]) + [path[|path| - 1]]
  }

  /** `filepath.Base`: the last element of the path, trailing separators
      removed; "." for the empty path and "/" for a path of separators. */
  function Base(path: string): (r: string)
    ensures r != []
    ensures Glob.Separator in r ==> r == [Glob.Separator]
  {
    if path == [] then "."
    else
      var trimmed := TrimTrailingSeparators(path);
      if trimmed == [] then [Glob.Separator]
      else AfterLastSeparator(trimmed)
  }

  /** `filepath.Ext`: the suffix of the last element that starts at its last
      dot, or "" when that element has no dot. */
  function Ext(path: string): (r: string)
    ensures r == [] || (r[0] == '.' && HasSuffix(path, r))
    ensures Glob.Separator !in r
    ensures forall i :: 1 <= i < |r| ==> r[i] != '.'
  {
    if path == [] || path[|path| - 1] == Glob.Separator then []
    else if path[|path| - 1] == '.' then ['.']
    else
      var e := Ext(path[..|path| - 1]);
      if e == [] then [] else e + [path[|path| - 1]]
  }

  /** `skipDir`: without recursion every directory the walk visits, the
      root included, is skipped; with it, only the denied directory names
      are. */
  function SkipDir(path: string, recursive: bool): (r: WalkResult)
    ensures r == Descend ==> recursive
    ensures Base(path) in DeniedDirs ==> r == SkipSubtree
  {
    if !recursive then SkipSubtree
    else if Base(path) in DeniedDirs then SkipSubtree
    else Descend
  }

  /** Does any exclude pattern match the name? */
  function AnyMatch(patterns: seq<string>, name: string): (r: bool)
    ensures !r ==> forall i :: 0 <= i < |patterns| ==> !Glob.Match(patterns[i], name)
  {
    patterns != [] && (Glob.Match(patterns[0], name) || AnyMatch(patterns[1..], name))
  }

  /** `skipFile`: files that are not Go source, test files unless tests are
      included, and files whose base name matches an exclude pattern are
      skipped. */
  function SkipFile(path: string, excludePatterns: seq<string>, includeTests: bool): (r: bool)
    ensures !r ==> HasSuffix(path, GoExt) && (includeTests || !HasSuffix(path, TestSuffix))
    ensures !r ==> forall i :: 0 <= i < |excludePatterns| ==> !Glob.Match(excludePatterns[i], Base(path))
  {
    ExtIsGoIffSuffix(path);
    Ext(path) != GoExt
    || (!includeTests && HasSuffix(path, TestSuffix))
    || AnyMatch(excludePatterns, Base(path))
  }

  // ---------------------------------------------------------------------
  // Path helpers

  /** A name without separators is its own base name. */
  lemma BaseOfName(name: string)
    requires name != [] && Glob.Separator !in name
    ensures Base(name) == name
  {
    var trimmed := TrimTrailingSeparators(name);
    assert name[|name| - 1] in name;
    assert trimmed == name;
  }

  /** The base name of `dir/name` is `name`, whatever the directory. */
  lemma BaseOfJoin(dir: string, name: string)
    requires name != [] && Glob.Separator !in name
    ensures Base(dir + [Glob.Separator] + name) == name
  {
    var path := dir + [Glob.Separator] + name;
    assert path[|path| - 1] == name[|name| - 1];
    assert name[|name| - 1] in name;
    var trimmed := TrimTrailingSeparators(path);
    assert trimmed == path;
    assert path[|dir|] == Glob.Separator;
    assert path[|path| - |name|..] == name;
  }

  /** `k` separators in a row. */
  function Separators(k: nat): (r: string)
    ensures |r| == k && forall i :: 0 <= i < k ==> r[i] == Glob.Separator
  {
    seq(k, _ => Glob.Separator)
  }

  /** Trailing separators do not change what is left once they are trimmed. */
  lemma {:induction false} TrimIgnoresTrailingSeparators(path: string, k: nat)
    ensures TrimTrailingSeparators(path + Separators(k)) == TrimTrailingSeparators(path)
  {
    if k > 0 {
      var p := path + Separators(k);
      assert p[|p| - 1] == Glob.Separator;
      assert p[..|p| - 1] == path + Separators(k - 1);
      TrimIgnoresTrailingSeparators(path, k - 1);
    } else {
      assert path + Separators(0) == path;
    }
  }

  /** Trailing separators do not change the base name of a non-empty path. */
  lemma BaseIgnoresTrailingSeparators(path: string, k: nat)
    requires path != []
    ensures Base(path + Separators(k)) == Base(path)
  {
    TrimIgnoresTrailingSeparators(path, k);
  }

  /** The extension is ".go" exactly when the path ends in ".go". */
  lemma ExtIsGoIffSuffix(path: string)
    ensures Ext(path) == GoExt <==> HasSuffix(path, GoExt)
  {
    if HasSuffix(path, GoExt) {
      var n := |path|;
      assert path[n - 1] == 'o' && path[n - 2] == 'g' && path[n - 3] == '.';
      var p1 := path[..n - 1];
      var p2 := p1[..n - 2];
      assert p2[n - 3] == '.';
      assert Ext(p2) == ".";
      assert Ext(p1) == ".g";
    }
  }

  /** A test file is a Go file. */
  lemma TestFileIsGoFile(path: string)
    requires HasSuffix(path, TestSuffix)
    ensures HasSuffix(path, GoExt)
  {
    assert path[|path| - 3..] == path[|path| - 8..][5..];
  }

  /** `AnyMatch` holds exactly when some pattern matches. */
  lemma {:induction false} AnyMatchIffSomeMatch(patterns: seq<string>, name: string)
    ensures AnyMatch(patterns, name) <==> exists i :: 0 <= i < |patterns| && Glob.Match(patterns[i], name)
  {
    if patterns != [] {
      AnyMatchIffSomeMatch(patterns[1..], name);
      if exists i :: 0 <= i < |patterns| && Glob.Match(patterns[i], name) {
        var i :| 0 <= i < |patterns| && Glob.Match(patterns[i], name);
        if i > 0 {
          assert patterns[1..][i - 1] == patterns[i];
        }
      }
      if AnyMatch(patterns[1..], name) {
        var i :| 0 <= i < |patterns[1..]| && Glob.Match(patterns[1..][i], name);
        assert patterns[i + 1] == patterns[1..][i];
      }
    }
  }

  // ---------------------------------------------------------------------
  // Directory decisions

  /** Without recursion, no directory is descended into. */
  lemma NonRecursiveNeverDescends(path: string)
    ensures SkipDir(path, false) == SkipSubtree
  {
  }

  /** With recursion, a denied directory is skipped under any parent
      directory, and also as a bare top-level name such as the `vendor` a
      walk from "." visits, with or without trailing separators. */
  lemma DeniedDirSkippedAnywhere(dir: string, name: string, k: nat)
    requires name in DeniedDirs
    ensures SkipDir(dir + [Glob.Separator] + name + Separators(k), true) == SkipSubtree
    ensures SkipDir(name + Separators(k), true) == SkipSubtree
  {
    assert Glob.Separator !in name;
    BaseIgnoresTrailingSeparators(dir + [Glob.Separator] + name, k);
    BaseIgnoresTrailingSeparators(name, k);
    BaseOfJoin(dir, name);
    BaseOfName(name);
  }

  /** With recursion, any other directory is descended into, under any
      parent directory and as a bare top-level name, with or without
      trailing separators. */
  lemma OrdinaryDirDescended(dir: string, name: string, k: nat)
    requires name != [] && Glob.Separator !in name && name !in DeniedDirs
    ensures SkipDir(dir + [Glob.Separator] + name + Separators(k), true) == Descend
    ensures SkipDir(name + Separators(k), true) == Descend
  {
    BaseIgnoresTrailingSeparators(dir + [Glob.Separator] + name, k);
    BaseIgnoresTrailingSeparators(name, k);
    BaseOfJoin(dir, name);
    BaseOfName(name);
  }

  /** Without recursion, `./directory` is skipped. */
  lemma SkipDirTestNonRecursive()
    ensures SkipDir("./directory", false) == SkipSubtree
  {
  }

  /** With recursion, `./directory` is descended into. */
  lemma SkipDirTestOrdinary()
    ensures SkipDir("./directory", true) == Descend
  {
    assert "./directory" == "." + [Glob.Separator] + "directory" + Separators(0);
    OrdinaryDirDescended(".", "directory", 0);
  }

  /** With recursion, `./.git` is skipped. */
  lemma SkipDirTestDeniedGit()
    ensures SkipDir("./.git", true) == SkipSubtree
  {
    BaseOfJoin(".", ".git");
    assert "." + [Glob.Separator] + ".git" == "./.git";
  }

  /** With recursion, `./testdata` is skipped. */
  lemma SkipDirTestDeniedTestdata()
    ensures SkipDir("./testdata", true) == SkipSubtree
  {
    BaseOfJoin(".", "testdata");
    assert "." + [Glob.Separator] + "testdata" == "./testdata";
  }

  /** With recursion, `./vendor` is skipped. */
  lemma SkipDirTestDeniedVendor()
    ensures SkipDir("./vendor", true) == SkipSubtree
  {
    BaseOfJoin(".", "vendor");
    assert "." + [Glob.Separator] + "vendor" == "./vendor";
  }

  // ---------------------------------------------------------------------
  // File decisions

  /** A file is analysed exactly when it ends in ".go", is not a test file
      unless tests are included, and no exclude pattern matches its base
      name. */
  lemma SkipFileIff(path: string, excludePatterns: seq<string>, includeTests: bool)
    ensures !SkipFile(path, excludePatterns, includeTests) <==>
              HasSuffix(path, GoExt)
              && (includeTests || !HasSuffix(path, TestSuffix))
              && forall i :: 0 <= i < |excludePatterns| ==> !Glob.Match(excludePatterns[i], Base(path))
  {
    ExtIsGoIffSuffix(path);
    AnyMatchIffSomeMatch(excludePatterns, Base(path));
  }

  /** The test-inclusion setting alone decides a test file that no pattern
      excludes: skipped when tests are off, analysed when they are on. */
  lemma TestFileFollowsSetting(path: string, excludePatterns: seq<string>)
    requires HasSuffix(path, TestSuffix)
    requires !AnyMatch(excludePatterns, Base(path))
    ensures SkipFile(path, excludePatterns, false)
    ensures !SkipFile(path, excludePatterns, true)
  {
    TestFileIsGoFile(path);
    ExtIsGoIffSuffix(path);
  }

  /** Including tests never skips more files. */
  lemma IncludingTestsSkipsNoMore(path: string, excludePatterns: seq<string>)
    ensures SkipFile(path, excludePatterns, true) ==> SkipFile(path, excludePatterns, false)
  {
  }

  /** Adding exclude patterns never analyses more files. */
  lemma {:induction false} MorePatternsSkipMore(path: string, a: seq<string>, b: seq<string>, includeTests: bool)
    ensures SkipFile(path, a, includeTests) ==> SkipFile(path, a + b, includeTests)
    ensures SkipFile(path, b, includeTests) ==> SkipFile(path, a + b, includeTests)
  {
    var name := Base(path);
    AnyMatchIffSomeMatch(a, name);
    AnyMatchIffSomeMatch(b, name);
    AnyMatchIffSomeMatch(a + b, name);
    if AnyMatch(a, name) {
      var i :| 0 <= i < |a| && Glob.Match(a[i], name);
      assert (a + b)[i] == a[i];
    }
    if AnyMatch(b, name) {
      var i :| 0 <= i < |b| && Glob.Match(b[i], name);
      assert (a + b)[|a| + i] == b[i];
    }
  }

  /** `file.txt` is skipped: it is not a Go file. */
  lemma SkipFileTestNotGo()
    ensures SkipFile("file.txt", [], false)
  {
    ExtIsGoIffSuffix("file.txt");
  }

  /** `file.go` is analysed when there are no exclude patterns. */
  lemma SkipFileTestGo()
    ensures !SkipFile("file.go", [], false)
  {
    ExtIsGoIffSuffix("file.go");
    assert !HasSuffix("file.go", TestSuffix);
  }

  /** `file_test.go` is skipped while tests are not included. */
  lemma SkipFileTestTestFile()
    ensures SkipFile("file_test.go", [], false)
  {
    TestFileFollowsSetting("file_test.go", []);
  }

  /** `foobar.go` is skipped under the exclude pattern `foo*.go`. */
  lemma SkipFileTestExcluded()
    ensures SkipFile("foobar.go", ["foo*.go"], false)
  {
    var name := "foobar.go";
    assert Glob.NoMeta("foo") && Glob.NoMeta(".go");
    Glob.PrefixStarSuffix("foo", ".go", name);
    assert "foo" + "*" + ".go" == "foo*.go";
    assert name[..3] == "foo" && name[6..] == ".go" && name[3..6] == "bar";
    BaseOfName(name);
    assert ["foo*.go"][0] == "foo*.go";
  }
}
