/**
 * The parts of a path that `pathlib.PurePosixPath` exposes and the tool
 * uses: `name`, `suffix` and `stem`.
 */
module Paths {

  /** Python's `s.rfind(c)`: the last position of `c` in `s`, or -1. */
  function LastIndexOf(s: string, c: char): int {
    if s == [] then -1
    else if s[|s| - 1] == c then |s| - 1
    else LastIndexOf(s[..|s| - 1], c)
  }

  /** `rfind` finds `c`, and no `c` comes after it. */
  lemma {:induction false} LastIndexOfIsLast(s: string, c: char)
    ensures var i := LastIndexOf(s, c);
            && -1 <= i < |s|
            && (i >= 0 ==> s[i] == c)
            && forall k :: i < k < |s| ==> s[k] != c
  {
    if s != [] && s[|s| - 1] != c {
      LastIndexOfIsLast(s[..|s| - 1], c);
    }
  }

  /** `path.name`: the text after the last `/`. */
  function BaseName(path: string): string {
    if path == [] || path[|path| - 1] == '/' then []
    else BaseName(path[..|path| - 1]) + [path[|path| - 1]]
  }

  /** The name is the end of the path after its last `/`, and has no `/`. */
  lemma {:induction false} BaseNameIsLastComponent(path: string)
    ensures var r := BaseName(path);
            && '/' !in r
            && |r| <= |path|
            && r == path[|path| - |r|..]
            && (|r| < |path| ==> path[|path| - |r| - 1] == '/')
  {
    if path != [] && path[|path| - 1] != '/' {
      var init := path[..|path| - 1];
      var last := path[|path| - 1];
      BaseNameIsLastComponent(init);
      var rInit := BaseName(init);
      var r := BaseName(path);
      assert r == rInit + [last];
      var start := |init| - |rInit|;
      assert path[start..] == init[start..] + [last];
      assert |path| - |r| == start;
      if |r| < |path| {
        assert path[start - 1] == init[start - 1];
      }
    }
  }

  /** Where pathlib splits the name into stem and suffix: the last dot, unless it is the first or last character. */
  function SuffixStart(name: string): int {
    var i := LastIndexOf(name, '.');
    if 0 < i < |name| - 1 then i else -1
  }

  /** `path.suffix`. */
  function Suffix(path: string): string {
    var name := BaseName(path);
    var i := SuffixStart(name);
    if i < 0 then "" else name[i..]
  }

  /** `path.stem`: the name without its suffix. */
  function Stem(path: string): string {
    var name := BaseName(path);
    var i := SuffixStart(name);
    if i < 0 then name else name[..i]
  }

  /** The stem followed by the suffix is the name; the suffix is empty or starts with a dot. */
  lemma StemThenSuffix(path: string)
    ensures Stem(path) + Suffix(path) == BaseName(path)
    ensures '/' !in Stem(path)
    ensures Suffix(path) == [] || Suffix(path)[0] == '.'
  {
    var name := BaseName(path);
    var i := SuffixStart(name);
    assert '/' !in name by {
      BaseNameIsLastComponent(path);
    }
    if i < 0 {
      assert Stem(path) + Suffix(path) == name + [];
    } else {
      var stem, suffix := name[..i], name[i..];
      assert Stem(path) == stem && Suffix(path) == suffix;
      assert stem + suffix == name;
      assert forall c :: c in stem ==> c in name;
      assert suffix[0] == '.' by {
        LastIndexOfIsLast(name, '.');
      }
    }
  }

  /** The name of a path is its last component. */
  lemma {:induction false} BaseNameOfComponent(dir: string, name: string)
    requires '/' !in name
    requires dir == [] || dir[|dir| - 1] == '/'
    ensures BaseName(dir + name) == name
  {
    if name != [] {
      var init := name[..|name| - 1];
      assert (dir + name)[..|dir + name| - 1] == dir + init;
      BaseNameOfComponent(dir, init);
      assert init + [name[|name| - 1]] == name;
    } else {
      assert dir + name == dir;
    }
  }

  /** In `stem.py` the last dot is the one before `py`. */
  lemma LastDotOfPyName(stem: string)
    ensures LastIndexOf(stem + ".py", '.') == |stem|
  {
    var name := stem + ".py";
    var dotP := stem + ".p";
    var dot := stem + ".";
    assert name[|name| - 1] == 'y' && name[..|name| - 1] == dotP;
    assert LastIndexOf(name, '.') == LastIndexOf(dotP, '.');
    assert dotP[|dotP| - 1] == 'p' && dotP[..|dotP| - 1] == dot;
    assert LastIndexOf(dotP, '.') == LastIndexOf(dot, '.');
    assert dot[|dot| - 1] == '.';
  }

  /** A file `stem.py` in any directory has that stem and the suffix `.py`. */
  lemma PyFileParts(dir: string, stem: string)
    requires stem != [] && '/' !in stem
    requires dir == [] || dir[|dir| - 1] == '/'
    ensures Stem(dir + stem + ".py") == stem
    ensures Suffix(dir + stem + ".py") == ".py"
  {
    var name := stem + ".py";
    assert dir + stem + ".py" == dir + name;
    assert '/' !in name by {
      assert forall k :: 0 <= k < |name| ==> name[k] == (if k < |stem| then stem[k] else ".py"[k - |stem|]);
    }
    BaseNameOfComponent(dir, name);
    LastDotOfPyName(stem);
    assert SuffixStart(name) == |stem|;
    assert name[..|stem|] == stem;
    assert name[|stem|..] == ".py";
  }

}
