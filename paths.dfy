/** The two `os.path` functions the core calls, under POSIX rules
    (`posixpath.basename` and `posixpath.join` with two arguments). */
module Paths {

  const Sep := '/'

  /** `os.path.basename(p)`: everything after the last '/', or all of `p` when it has none;
      empty when `p` ends with '/'. */
  function Basename(p: string): (r: string)
    ensures Sep !in r
    ensures |r| <= |p| && p[|p| - |r|..] == r
    ensures |r| < |p| ==> p[|p| - |r| - 1] == Sep
  {
    if p == [] || p[|p| - 1] == Sep then [] else Basename(p[..|p| - 1]) + [p[|p| - 1]]
  }

  /** The three properties in `Basename`'s contract determine its result: any suffix of `p`
      without '/' that is all of `p` or follows a '/' is the basename. */
  lemma {:induction false} BasenameUnique(p: string, r: string)
    requires Sep !in r
    requires |r| <= |p| && p[|p| - |r|..] == r
    requires |r| < |p| ==> p[|p| - |r| - 1] == Sep
    ensures Basename(p) == r
  {
    var b := Basename(p);
    if |b| != |r| {
      // the shorter one is preceded by a '/' that lies inside the longer one
      assert false;
    }
    assert b == p[|p| - |b|..] == r;
  }

  /** `os.path.join(a, b)`: `b` alone when it is absolute; otherwise `a` and `b` with one '/'
      between them, unless `a` is empty or already ends with '/'. */
  function JoinPath(a: string, b: string): string {
    if |b| > 0 && b[0] == Sep then b
    else if a == [] || a[|a| - 1] == Sep then a + b
    else a + [Sep] + b
  }

  /** A directory entry name (never containing '/') is the basename of the path joined from it,
      so the file label of a loaded page is the name the directory listing gave. */
  lemma JoinPathBasename(directory: string, name: string)
    requires Sep !in name
    ensures Basename(JoinPath(directory, name)) == name
  {
    var p := JoinPath(directory, name);
    if |name| > 0 && name[0] == Sep {
      assert false;
    } else if directory == [] || directory[|directory| - 1] == Sep {
      assert p[|p| - |name|..] == name;
      if |name| < |p| {
        assert p[|p| - |name| - 1] == directory[|directory| - 1];
      }
    } else {
      assert p[|p| - |name|..] == name;
      assert p[|p| - |name| - 1] == Sep;
    }
    BasenameUnique(p, name);
  }
}
