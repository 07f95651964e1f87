/** Ruby's File.join on '/'-separated paths, which every path of the report is built with. */
module Paths {

  /** `s` without its trailing run of '/' characters. */
  function TrimTrailingSlashes(s: string): (r: string)
    ensures r <= s
    ensures r == [] || r[|r| - 1] != '/'
    ensures forall i :: |r| <= i < |s| ==> s[i] == '/'
  {
    if s != [] && s[|s| - 1] == '/' then TrimTrailingSlashes(s[..|s| - 1]) else s
  }

  /** File.join(dir, part): when `part` starts with '/', the trailing separators of `dir`
      are dropped; when neither side has a separator at the seam, one '/' is inserted;
      otherwise the two are concatenated as they are. */
  function Join(dir: string, part: string): string {
    var t := TrimTrailingSlashes(dir);
    if part != [] && part[0] == '/' then t + part
    else if t == dir then dir + "/" + part
    else dir + part
  }

  /** File.join(a, b, c), which Ruby folds from the left. */
  function Join3(a: string, b: string, c: string): string {
    Join(Join(a, b), c)
  }

  /** Whatever the part, the joined path lies under `dir`: it starts with `dir`
      (less its trailing separators) followed by exactly one '/'. */
  lemma JoinUnder(dir: string, part: string)
    ensures TrimTrailingSlashes(dir) + "/" <= Join(dir, part)
  {
    var t := TrimTrailingSlashes(dir);
    if !(part != [] && part[0] == '/') && t != dir {
      assert dir[|t|] == '/';
      assert dir == t + dir[|t|..];
    }
  }

  /** Trimming the trailing separators of a path under `p` + "/" keeps it under
      `p` + "/", as long as `p` does not itself end in a separator. */
  lemma PrefixSurvivesTrim(p: string, x: string)
    requires p != [] && p[|p| - 1] != '/'
    requires p + "/" <= x
    ensures p + "/" <= TrimTrailingSlashes(x) + "/"
  {
    var t := TrimTrailingSlashes(x);
    assert x[|p| - 1] == p[|p| - 1];
    assert |p| <= |t|;
    assert t[..|p|] == p;
    if |p| < |t| {
      assert t[|p|] == x[|p|] == '/';
      assert (t + "/")[..|p| + 1] == p + "/";
    } else {
      assert t == p;
    }
  }

  /** Without separators at the seam File.join inserts exactly one '/'. */
  lemma JoinPlain(dir: string, part: string)
    requires dir == [] || dir[|dir| - 1] != '/'
    requires part == [] || part[0] != '/'
    ensures Join(dir, part) == dir + "/" + part
  {
  }
}
