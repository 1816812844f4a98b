// The parts of Python's `posixpath` the shell relies on: `dirname`,
// `basename`, `join` and `rstrip('/')`. `normpath` is not modelled; it is a
// parameter wherever it is used.
module PosixPath {
  import Text

  /** The position of the last `/`, or -1. */
  function LastSlash(p: string): (r: int)
    ensures -1 <= r < |p|
    ensures r >= 0 ==> p[r] == '/'
    ensures forall k :: r < k < |p| ==> p[k] != '/'
    decreases |p|
  {
    if p == [] then -1
    else if p[|p| - 1] == '/' then |p| - 1
    else LastSlash(p[..|p| - 1])
  }

  /** `rstrip('/')`. */
  function TrimSlashes(s: string): (r: string)
    ensures |r| <= |s| && s[..|r|] == r
    ensures r != [] ==> r[|r| - 1] != '/'
    ensures forall k :: |r| <= k < |s| ==> s[k] == '/'
    decreases |s|
  {
    if s != [] && s[|s| - 1] == '/' then
      var t := s[..|s| - 1];
      var r := TrimSlashes(t);
      assert forall k :: |r| <= k < |t| ==> s[k] == t[k];
      r
    else s
  }

  /** Everything up to and including the last `/`. */
  function Head(p: string): (r: string)
  {
    p[..LastSlash(p) + 1]
  }

  /** `os.path.basename`: everything after the last `/`. */
  function Basename(p: string): (r: string)
    ensures '/' !in r
    ensures Head(p) + r == p
  {
    var i := LastSlash(p) + 1;
    var r := p[i..];
    assert '/' !in r by {
      forall k | 0 <= k < |r| ensures r[k] != '/' {
        assert r[k] == p[i + k];
      }
    }
    assert p[..i] + r == p;
    r
  }

  /** `os.path.dirname`: the head with its trailing slashes removed, unless it is all slashes. */
  function Dirname(p: string): (r: string)
  {
    var head := Head(p);
    if head != [] && exists k :: 0 <= k < |head| && head[k] != '/' then TrimSlashes(head) else head
  }

  /** `os.path.join` of two components. */
  function Join(a: string, b: string): (r: string)
  {
    if Text.StartsWith(b, "/") then b
    else if a == [] || Text.EndsWith(a, "/") then a + b
    else a + "/" + b
  }

  /** Joining puts exactly one `/` between a directory without a trailing slash and a relative
      name, adds none after one, and an absolute second component replaces the first. */
  lemma JoinCases(a: string, b: string)
    ensures Text.StartsWith(b, "/") ==> Join(a, b) == b
    ensures !Text.StartsWith(b, "/") && a != [] && !Text.EndsWith(a, "/") ==> Join(a, b) == a + "/" + b
    ensures !Text.StartsWith(b, "/") && Text.EndsWith(a, "/") ==> Join(a, b) == a + b
    ensures Text.StartsWith(a, "/") ==> Text.StartsWith(Join(a, b), "/")
  {
    if Text.StartsWith(a, "/") && !Text.StartsWith(b, "/") {
      if a == [] || Text.EndsWith(a, "/") {
        assert (a + b)[..1] == a[..1];
      } else {
        assert (a + "/" + b)[..1] == a[..1];
      }
    }
  }

  /** Dirname and basename split a path at its last `/`: a directory joined with a name splits
      back into the two. */
  lemma SplitJoined(parent: string, name: string)
    requires Text.StartsWith(parent, "/") && !Text.EndsWith(parent, "/") && name != [] && '/' !in name
    ensures Dirname(Join(parent, name)) == parent
    ensures Basename(Join(parent, name)) == name
  {
    assert !Text.StartsWith(name, "/") by {
      assert name[0] != '/';
    }
    var p := parent + "/" + name;
    assert Join(parent, name) == p;
    assert p[|parent|] == '/';
    assert forall k :: |parent| < k < |p| ==> p[k] == name[k - |parent| - 1];
    assert LastSlash(p) == |parent| by {
      assert forall k :: |parent| < k < |p| ==> p[k] != '/';
    }
    assert Head(p) == parent + "/";
    assert p[|parent| + 1..] == name;
    assert (parent + "/")[|parent| - 1] == parent[|parent| - 1] != '/';
    assert TrimSlashes(parent + "/") == parent by {
      assert (parent + "/")[..|parent|] == parent;
    }
  }
}
