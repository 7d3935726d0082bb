/**
  String handling on file paths: the image-suffix tests, ASCII lower-casing,
  and the POSIX `os.path.join` / `os.path.basename` behaviour the server relies on.
 */
module Paths {

  type Path = string

  predicate EndsWith(s: string, suffix: string) {
    |suffix| <= |s| && s[|s| - |suffix|..] == suffix
  }

  /** The suffix tuple `('.jpg', '.jpeg', '.png')`, matched exactly (case-sensitively). */
  predicate IsImageName(s: string) {
    EndsWith(s, ".jpg") || EndsWith(s, ".jpeg") || EndsWith(s, ".png")
  }

  /**
    `str.lower()` restricted to ASCII. No other character lowers to one of the
    letters of `jpg`, `jpeg`, `png` or to `.`, so the suffix test below is not
    affected by the restriction.
   */
  function LowerChar(c: char): char {
    if 'A' <= c <= 'Z' then (c as int - 'A' as int + 'a' as int) as char else c
  }

  function Lower(s: string): string {
    seq(|s|, i requires 0 <= i < |s| => LowerChar(s[i]))
  }

  /** The pipeline's filter: the lower-cased path ends with an image suffix. */
  predicate IsImagePath(p: Path) {
    IsImageName(Lower(p))
  }

  /** `os.path.basename`: everything after the last `/`. */
  function Basename(p: Path): (r: string)
    ensures '/' !in r
    ensures EndsWith(p, r)
    ensures |r| < |p| ==> p[|p| - |r| - 1] == '/'
    decreases |p|
  {
    if p == [] || p[|p| - 1] == '/' then []
    else
      var init := p[..|p| - 1];
      var r' := Basename(init);
      assert p[|p| - |r'| - 1..] == init[|init| - |r'|..] + [p[|p| - 1]];
      r' + [p[|p| - 1]]
  }

  /** `os.path.join(dir, name)` for two components, as POSIX Python does it. */
  function Join(dir: Path, name: string): (r: Path)
    ensures |name| > 0 && name[0] == '/' ==> r == name
    ensures !(|name| > 0 && name[0] == '/') ==>
      && |dir| + |name| <= |r| <= |dir| + |name| + 1
      && r[..|dir|] == dir && r[|r| - |name|..] == name
      && (|r| == |dir| + |name| + 1 <==> dir != [] && dir[|dir| - 1] != '/')
      && (|r| == |dir| + |name| + 1 ==> r[|dir|] == '/')
  {
    if |name| > 0 && name[0] == '/' then name
    else if dir == [] || dir[|dir| - 1] == '/' then dir + name
    else dir + "/" + name
  }

  /** Every suffix the exact test accepts is also accepted after lower-casing. */
  lemma ExactSuffixPassesFolded(s: string)
    requires IsImageName(s)
    ensures IsImagePath(s)
  {
    if EndsWith(s, ".jpg") {
      LowerKeepsSuffix(s, ".jpg");
    } else if EndsWith(s, ".jpeg") {
      LowerKeepsSuffix(s, ".jpeg");
    } else {
      LowerKeepsSuffix(s, ".png");
    }
  }

  lemma LowerKeepsSuffix(s: string, suffix: string)
    requires EndsWith(s, suffix)
    requires forall i :: 0 <= i < |suffix| ==> LowerChar(suffix[i]) == suffix[i]
    ensures EndsWith(Lower(s), suffix)
  {
    var k := |s| - |suffix|;
    forall i | 0 <= i < |suffix|
      ensures Lower(s)[k..][i] == suffix[i]
    {
      assert s[k..][i] == suffix[i];
    }
  }

  /** The two filters disagree on upper-case extensions: `A.JPG` passes only the folded one. */
  lemma UpperCaseExtensionPassesFoldedOnly()
    ensures IsImagePath("A.JPG")
    ensures !IsImageName("A.JPG")
  {
    var folded := Lower("A.JPG");
    assert folded[1] == '.' && folded[2] == 'j' && folded[3] == 'p' && folded[4] == 'g';
    assert folded[1..] == ".jpg";
    UpperCaseExtensionNotExact();
  }

  lemma UpperCaseExtensionNotExact()
    ensures !IsImageName("A.JPG")
  {
    assert "A.JPG"[1..][1] == 'J';
    assert "A.JPG"[0..][0] == 'A';
  }

  /** A path whose last characters pass the folded test passes it whatever comes before them. */
  lemma ImagePathAfterPrefix(prefix: Path, name: string)
    requires IsImagePath(name)
    ensures IsImagePath(prefix + name)
  {
    if EndsWith(Lower(name), ".jpg") {
      EndOfPrefixed(prefix, name, ".jpg");
    } else if EndsWith(Lower(name), ".jpeg") {
      EndOfPrefixed(prefix, name, ".jpeg");
    } else {
      EndOfPrefixed(prefix, name, ".png");
    }
  }

  /** A relative name that passes the folded test keeps passing it once joined under any directory. */
  lemma JoinKeepsImagePath(dir: Path, name: string)
    requires IsImagePath(name) && (|name| == 0 || name[0] != '/')
    ensures IsImagePath(Join(dir, name))
  {
    if dir == [] || dir[|dir| - 1] == '/' {
      ImagePathAfterPrefix(dir, name);
    } else {
      assert Join(dir, name) == (dir + "/") + name;
      ImagePathAfterPrefix(dir + "/", name);
    }
  }

  /**
    The folded test looks only at the last five characters (the length of
    `.jpeg`): once a name is that long, no prefix changes the verdict.
   */
  lemma ImagePathDependsOnEnd(prefix: Path, name: string)
    requires |name| >= 5
    ensures IsImagePath(prefix + name) <==> IsImagePath(name)
  {
    if IsImagePath(name) {
      ImagePathAfterPrefix(prefix, name);
    } else {
      EndOfPrefixed(prefix, name, ".jpg");
      EndOfPrefixed(prefix, name, ".jpeg");
      EndOfPrefixed(prefix, name, ".png");
    }
  }

  /** Whether the folded path ends in `suffix` is decided inside `name` once `name` is at least as long as `suffix`. */
  lemma EndOfPrefixed(prefix: Path, name: string, suffix: string)
    requires |suffix| <= |name|
    ensures EndsWith(Lower(prefix + name), suffix) <==> EndsWith(Lower(name), suffix)
  {
    var whole := prefix + name;
    assert Lower(whole) == Lower(prefix) + Lower(name);
    var tail := Lower(name);
    assert Lower(whole)[|Lower(whole)| - |suffix|..] == tail[|tail| - |suffix|..];
  }

  /** The name after a separator is the basename, whatever precedes it. */
  lemma BasenameAfterSeparator(dir: Path, name: string)
    requires dir == [] || dir[|dir| - 1] == '/'
    requires '/' !in name
    ensures Basename(dir + name) == name
  {
    var p := dir + name;
    assert p[|p| - |name|..] == name;
    if |name| < |p| {
      assert p[|p| - |name| - 1] == dir[|dir| - 1];
    }
    BasenameUnique(p, name);
  }

  /**
    The basename is the only suffix that is free of separators and is either
    the whole path or preceded by a separator.
   */
  lemma BasenameUnique(p: Path, r: string)
    requires '/' !in r && EndsWith(p, r)
    requires |r| < |p| ==> p[|p| - |r| - 1] == '/'
    ensures Basename(p) == r
  {
    var b := Basename(p);
    NoSeparatorInSuffix(p, r);
    NoSeparatorInSuffix(p, b);
    assert |b| < |p| ==> |r| <= |b|;
    assert |r| < |p| ==> |b| <= |r|;
    SuffixesOfEqualLength(p, b, r);
  }

  lemma SuffixesOfEqualLength(p: Path, a: string, b: string)
    requires EndsWith(p, a) && EndsWith(p, b) && |a| == |b|
    ensures a == b
  {
  }

  lemma NoSeparatorInSuffix(p: Path, r: string)
    requires '/' !in r && EndsWith(p, r)
    ensures forall k :: 0 <= k < |p| && p[k] == '/' ==> k < |p| - |r|
  {
    forall k | |p| - |r| <= k < |p|
      ensures p[k] != '/'
    {
      assert p[k] == r[k - (|p| - |r|)];
    }
  }

  /** A file name without separators is the basename of any path joined onto it. */
  lemma BasenameOfJoin(dir: Path, name: string)
    requires '/' !in name
    ensures Basename(Join(dir, name)) == name
  {
    if dir == [] || dir[|dir| - 1] == '/' {
      BasenameAfterSeparator(dir, name);
    } else {
      assert dir + "/" + name == (dir + "/") + name;
      BasenameAfterSeparator(dir + "/", name);
    }
  }
}
