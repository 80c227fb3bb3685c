/**
 * The POSIX path operations of Python's `os.path` that the ignore engine
 * uses: `join` of two parts, `split`, `relpath` (with the `abspath` and
 * `normpath` it goes through) and `isabs`.
 */
module Paths {
  import opened Text

  /** `os.path.isabs`. */
  predicate IsAbs(p: string)
  {
    |p| > 0 && p[0] == '/'
  }

  /** A name as `os.listdir` returns it: not empty and without a slash. */
  predicate IsName(p: string)
  {
    p != "" && '/' !in p
  }

  /** `os.path.join(a, b)`: an absolute `b` replaces `a`; otherwise one slash separates them. */
  function Join(a: string, b: string): string
  {
    if IsAbs(b) then b
    else if |a| == 0 || a[|a| - 1] == '/' then a + b
    else a + "/" + b
  }

  /** Joining a name to a directory never gives the empty path. */
  lemma JoinName(a: string, p: string)
    requires IsName(p)
    ensures Join(a, p) != ""
  {
  }

  /** One past the last slash of `p`, or 0 when there is none. */
  function TailStart(p: string): (i: nat)
    ensures i <= |p|
    ensures i > 0 ==> p[i - 1] == '/'
    ensures forall k :: i <= k < |p| ==> p[k] != '/'
    decreases |p|
  {
    if |p| == 0 then 0
    else if p[|p| - 1] == '/' then |p|
    else TailStart(p[..|p| - 1])
  }

  /** `h.rstrip('/')`. */
  function TrimSlashes(h: string): (r: string)
    ensures |r| <= |h| && r == h[..|r|]
    ensures |r| > 0 ==> r[|r| - 1] != '/'
    ensures forall k :: |r| <= k < |h| ==> h[k] == '/'
    decreases |h|
  {
    if |h| > 0 && h[|h| - 1] == '/' then TrimSlashes(h[..|h| - 1]) else h
  }

  /** `os.path.split(p)`: the head (trailing slashes dropped unless it is only slashes) and the last name. */
  function Split(p: string): (string, string)
  {
    var i := TailStart(p);
    var head := p[..i];
    var h := TrimSlashes(head);
    (if h != "" then h else head, p[i..])
  }

  /**
   * The tail of `split` is what follows the last slash; the head is a
   * prefix before it, and is the whole path only when the path is
   * nothing but slashes.
   */
  lemma SplitSpec(p: string)
    ensures Split(p).1 == p[TailStart(p)..] && '/' !in Split(p).1
    ensures |Split(p).0| <= TailStart(p) && Split(p).0 == p[..|Split(p).0|]
    ensures Split(p).0 == p <==> forall k :: 0 <= k < |p| ==> p[k] == '/'
  {
    var i := TailStart(p);
    var head := p[..i];
    var tail := p[i..];
    assert forall k :: 0 <= k < |tail| ==> tail[k] == p[i + k];
    var h := TrimSlashes(head);
    if h == "" {
      assert forall k :: 0 <= k < |head| ==> head[k] == '/';
      if i < |p| {
        assert p[|p| - 1] != '/';
      }
    } else {
      assert h[|h| - 1] != '/' && h[|h| - 1] == p[|h| - 1];
    }
  }

  /** A path ends in a text without a slash exactly when its last name does. */
  lemma TailSuffix(p: string, lit: string)
    requires forall k :: 0 <= k < |lit| ==> lit[k] != '/'
    ensures var name := Split(p).1;
            (|lit| <= |p| && p[|p| - |lit|..] == lit) <==> (|lit| <= |name| && name[|name| - |lit|..] == lit)
  {
    var i := TailStart(p);
    var name := p[i..];
    assert Split(p).1 == name;
    if |lit| <= |p| && p[|p| - |lit|..] == lit {
      assert name[|name| - |lit|..] == p[|p| - |lit|..];
    }
    if |lit| <= |name| && name[|name| - |lit|..] == lit {
      assert name[|name| - |lit|..] == p[|p| - |lit|..];
    }
  }

  /** The names of a slash-separated path with the empty pieces dropped, as `[x for x in p.split('/') if x]`. */
  function Parts(p: string): (r: seq<string>)
    ensures forall k :: 0 <= k < |r| ==> IsName(r[k])
  {
    NonEmpty(SplitOn(p, '/'))
  }

  function NonEmpty(xs: seq<string>): (r: seq<string>)
    ensures forall k :: 0 <= k < |r| ==> r[k] != "" && exists j :: 0 <= j < |xs| && xs[j] == r[k]
    decreases |xs|
  {
    if |xs| == 0 then []
    else if xs[0] == "" then NonEmpty(xs[1..])
    else
      var rest := NonEmpty(xs[1..]);
      assert forall k :: 0 <= k < |rest| ==> exists j :: 0 <= j < |xs| && xs[j] == rest[k] by {
        forall k | 0 <= k < |rest| ensures exists j :: 0 <= j < |xs| && xs[j] == rest[k] {
          var j :| 0 <= j < |xs| - 1 && xs[1..][j] == rest[k];
          assert xs[j + 1] == rest[k];
        }
      }
      [xs[0]] + rest
  }

  lemma {:induction false} NonEmptyConcat(xs: seq<string>, ys: seq<string>)
    ensures NonEmpty(xs + ys) == NonEmpty(xs) + NonEmpty(ys)
    decreases |xs|
  {
    if |xs| > 0 {
      assert (xs + ys)[1..] == xs[1..] + ys;
      NonEmptyConcat(xs[1..], ys);
    } else {
      assert xs + ys == ys;
    }
  }

  /** One step of `normpath` on an absolute path: `.` and empty names vanish, `..` drops the last name. */
  function NormStep(acc: seq<string>, comp: string): seq<string>
  {
    if comp == "" || comp == "." then acc
    else if comp != ".." || (|acc| > 0 && acc[|acc| - 1] == "..") then acc + [comp]
    else if |acc| > 0 then acc[..|acc| - 1]
    else acc
  }

  /** `normpath` of an absolute path, as the list of its names. */
  function NormAbs(comps: seq<string>): seq<string>
    decreases |comps|
  {
    if |comps| == 0 then [] else NormStep(NormAbs(comps[..|comps| - 1]), comps[|comps| - 1])
  }

  /** `abspath(p).split('/')` without the empty pieces; `cwd` is `os.getcwd()`, an absolute path. */
  function AbsParts(p: string, cwd: string): seq<string>
  {
    NormAbs(Parts(if IsAbs(p) then p else Join(cwd, p)))
  }

  /** Length of the longest common prefix (`os.path.commonprefix` of two lists). */
  function CommonPrefix(a: seq<string>, b: seq<string>): (n: nat)
    ensures n <= |a| && n <= |b| && a[..n] == b[..n]
    ensures n < |a| && n < |b| ==> a[n] != b[n]
    decreases |a|
  {
    if |a| == 0 || |b| == 0 || a[0] != b[0] then 0
    else
      var n := CommonPrefix(a[1..], b[1..]);
      assert a[..n + 1] == [a[0]] + a[1..][..n];
      assert b[..n + 1] == [b[0]] + b[1..][..n];
      n + 1
  }

  function Ups(n: nat): (r: seq<string>)
    ensures |r| == n && forall k :: 0 <= k < n ==> r[k] == ".."
  {
    if n == 0 then [] else Ups(n - 1) + [".."]
  }

  /** `os.path.relpath(path, start)`; an empty `path` makes Python raise `ValueError`. */
  function RelPath(path: string, start: string, cwd: string): string
    requires path != ""
  {
    RelNames(AbsParts(start, cwd), AbsParts(path, cwd))
  }

  /** The relative path from the names `s` to the names `p`: up to their common prefix, then down. */
  function RelNames(s: seq<string>, p: seq<string>): string
  {
    var i := CommonPrefix(s, p);
    var rel := Ups(|s| - i) + p[i..];
    if rel == [] then "." else JoinWith(rel, '/')
  }

  /** The names of a path with no `.` or `..` among them. */
  predicate Normal(p: string)
  {
    forall k :: 0 <= k < |Parts(p)| ==> Parts(p)[k] != "." && Parts(p)[k] != ".."
  }

  lemma {:induction false} NormAbsIdentity(comps: seq<string>)
    requires forall k :: 0 <= k < |comps| ==> comps[k] != "" && comps[k] != "." && comps[k] != ".."
    ensures NormAbs(comps) == comps
    decreases |comps|
  {
    if |comps| > 0 {
      NormAbsIdentity(comps[..|comps| - 1]);
      assert comps[..|comps| - 1] + [comps[|comps| - 1]] == comps;
    }
  }

  /** Parts of a path extended by one name. */
  lemma PartsJoin(d: string, p: string)
    requires IsName(p)
    ensures Parts(Join(d, p)) == Parts(d) + [p]
  {
    SplitFree(p, '/');
    if |d| == 0 {
      assert Join(d, p) == p;
      assert Parts(d) == [];
    } else if d[|d| - 1] == '/' {
      PartsJoinSlash(d[..|d| - 1], p);
      assert d == d[..|d| - 1] + ['/'];
    } else {
      assert Join(d, p) == d + ['/'] + p;
      SplitConcat(d, p, '/');
      NonEmptyConcat(SplitOn(d, '/'), [p]);
    }
  }

  /** The case of `PartsJoin` where the directory ends in a slash. */
  lemma PartsJoinSlash(d': string, p: string)
    requires IsName(p) && SplitOn(p, '/') == [p]
    ensures Parts(d' + ['/'] + p) == Parts(d' + ['/']) + [p]
  {
    SplitConcat(d', p, '/');
    NonEmptyConcat(SplitOn(d', '/'), [p]);
    assert d' + ['/'] == d' + ['/'] + "";
    SplitConcat(d', "", '/');
    NonEmptyConcat(SplitOn(d', '/'), [""]);
  }

  /**
   * A name joined to a normal absolute directory is, relative to that
   * directory, the name itself; so is its `split` tail.
   */
  lemma ChildRelPath(d: string, p: string, cwd: string)
    requires IsAbs(d) && Normal(d)
    requires IsName(p) && p != "." && p != ".."
    ensures Join(d, p) != "" && RelPath(Join(d, p), d, cwd) == p
    ensures Split(RelPath(Join(d, p), d, cwd)) == ("", p)
  {
    var s := Parts(d);
    PartsJoin(d, p);
    assert IsAbs(Join(d, p));
    NormAbsIdentity(s);
    NormAbsIdentity(s + [p]);
    assert AbsParts(d, cwd) == s;
    assert AbsParts(Join(d, p), cwd) == s + [p];
    var i := CommonPrefix(s, s + [p]);
    assert i == |s|;
    assert (s + [p])[i..] == [p];
    assert Ups(0) + [p] == [p];
    assert TailStart(p) == 0;
    assert TrimSlashes("") == "";
  }

  /** `normpath` of names leaves names. */
  lemma {:induction false} NormAbsNames(comps: seq<string>)
    requires forall k :: 0 <= k < |comps| ==> IsName(comps[k])
    ensures forall k :: 0 <= k < |NormAbs(comps)| ==> IsName(NormAbs(comps)[k])
    decreases |comps|
  {
    if |comps| > 0 {
      NormAbsNames(comps[..|comps| - 1]);
    }
  }

  /** `relpath` never gives an empty path nor one ending in a slash. */
  lemma RelPathShape(path: string, start: string, cwd: string)
    requires path != ""
    ensures var r := RelPath(path, start, cwd); r != "" && r[|r| - 1] != '/'
  {
    NormAbsNames(Parts(if IsAbs(path) then path else Join(cwd, path)));
    RelShape(AbsParts(start, cwd), AbsParts(path, cwd));
  }

  /** The relative path between lists of names is never empty nor ends in a slash. */
  lemma RelShape(s: seq<string>, p: seq<string>)
    requires forall k :: 0 <= k < |p| ==> IsName(p[k])
    ensures var r := RelNames(s, p); r != "" && r[|r| - 1] != '/'
  {
    var i := CommonPrefix(s, p);
    var rel := Ups(|s| - i) + p[i..];
    if rel != [] {
      var last := rel[|rel| - 1];
      if i < |p| {
        assert last == p[|p| - 1];
      }
      assert IsName(last);
      JoinWithLast(rel, '/');
      assert last[|last| - 1] in last;
    }
  }
}
