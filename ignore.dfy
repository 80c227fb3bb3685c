/**
 * The ignore engine: a tree of per-directory `Ignore` nodes built from a
 * directory listing, the ignore files found in each directory, and the
 * decision whether a path is excluded from sharing.
 *
 * The filesystem is a map from path strings to entries; the helpers
 * `unfuck_path`, `is_shared` and `to_rel_path` of the repository's `utils`
 * module, and the process's working directory, are fields of `Env`, so
 * every result holds for every choice of them.
 */
module Ignores {
  import opened Text
  import opened Paths
  import Glob

  const IGNORE_FILES: seq<string> := [".gitignore", ".hgignore", ".flignore", ".flooignore"]
  const HIDDEN_WHITELIST: seq<string> := [".floo"] + IGNORE_FILES
  const BLACKLIST: seq<string> := [".DS_Store", ".git", ".svn", ".hg"]
  const DEFAULT_IGNORES: seq<string> :=
    ["#*", "*.o", "*.pyc", "*~", "extern/", "node_modules/", "tmp", "vendor/"]
  const MAX_FILE_SIZE: nat := 1024 * 1024 * 5

  /** Pseudo ignore-file names under which a node keeps its built-in pattern lists. */
  const TOO_BIG: string := "/TOO_BIG/"
  const DEFAULT: string := "/DEFAULT/"

  datatype Option<T> = None | Some(value: T)

  /** What `os.stat` finds at a path: a directory with its listing, a regular file, or anything else. */
  datatype Entry = Dir(listing: seq<string>) | File(size: nat, text: string) | Special

  type Fs = map<string, Entry>

  datatype Env = Env(
    unfuckPath: string -> string,
    isShared: string -> bool,
    toRelPath: string -> string,
    cwd: string)

  /** Listings hold names, as `os.listdir` returns them. */
  ghost predicate FsOk(fs: Fs)
  {
    forall d :: d in fs && fs[d].Dir? ==> forall k :: 0 <= k < |fs[d].listing| ==> IsName(fs[d].listing[k])
  }

  /** `os.listdir`: fails unless the path is a directory. */
  function Listing(fs: Fs, dir: string): Option<seq<string>>
  {
    if dir in fs && fs[dir].Dir? then Some(fs[dir].listing) else None
  }

  /** `open(p).read()`: fails unless the path is a regular file. */
  function ReadText(fs: Fs, p: string): Option<string>
  {
    if p in fs && fs[p].File? then Some(fs[p].text) else None
  }

  /** `os.stat(q)` finds a regular file of `sz` bytes. */
  predicate FileOf(fs: Fs, q: string, sz: nat)
  {
    q in fs && fs[q].File? && fs[q].size == sz
  }

  /** `os.stat`. */
  function Stat(fs: Fs, p: string): Option<Entry>
  {
    if p in fs then Some(fs[p]) else None
  }

  /** `stat.S_ISDIR(os.stat(p).st_mode)` unless the caller already knows; `None` when `stat` fails. */
  function DirOf(p: string, isDir: Option<bool>, fs: Fs): Option<bool>
  {
    if isDir.Some? then isDir else if p in fs then Some(fs[p].Dir?) else None
  }

  predicate Distinct(s: seq<string>)
  {
    forall i, j :: 0 <= i < j < |s| ==> s[i] != s[j]
  }

  /** A Python dictionary: the map `m`, whose keys in insertion order are `order`. */
  ghost predicate DictOk<V>(m: map<string, V>, order: seq<string>)
    decreases |order|
  {
    if |order| == 0 then m == map[]
    else order[|order| - 1] in m && DictOk(m - {order[|order| - 1]}, order[..|order| - 1])
  }

  /** `d[k] = v` keeps an existing key's place and appends a new one. */
  lemma {:induction false} DictPut<V>(m: map<string, V>, order: seq<string>, k: string, v: V)
    requires DictOk(m, order)
    ensures DictOk(m[k := v], if k in m then order else order + [k])
    decreases |order|
  {
    if k in m {
      var n := |order| - 1;
      var last := order[n];
      if last == k {
        assert m[k := v] - {k} == m - {k};
      } else {
        assert m[k := v] - {last} == (m - {last})[k := v];
        DictPut(m - {last}, order[..n], k, v);
      }
    } else {
      assert m[k := v] - {k} == m;
      assert (order + [k])[..|order|] == order;
    }
  }

  /** The keys of a dictionary are those of its order, each once. */
  lemma {:induction false} DictKeys<V>(m: map<string, V>, order: seq<string>)
    requires DictOk(m, order)
    ensures forall k :: k in m <==> k in order
    ensures Distinct(order)
    decreases |order|
  {
    if |order| > 0 {
      var n := |order| - 1;
      DictKeys(m - {order[n]}, order[..n]);
      assert order == order[..n] + [order[n]];
      forall i, j | 0 <= i < j < |order| ensures order[i] != order[j] {
        if j == n {
          assert order[i] in order[..n];
        } else {
          assert order[..n][i] == order[i] && order[..n][j] == order[j];
        }
      }
    }
  }

  /** The accepted files of a node at `dir`: each is `dir` joined with an entry name, and has the recorded size. */
  ghost predicate FilesFrom(dir: string, files: seq<string>, names: seq<string>, sizes: seq<nat>)
    decreases |files|
  {
    |files| == |names| == |sizes|
    && (|files| == 0 ||
        var n := |files| - 1;
        IsName(names[n]) && files[n] == Join(dir, names[n]) && FilesFrom(dir, files[..n], names[..n], sizes[..n]))
  }

  lemma {:induction false} FilesFromAt(dir: string, files: seq<string>, names: seq<string>, sizes: seq<nat>)
    requires FilesFrom(dir, files, names, sizes)
    ensures forall k :: 0 <= k < |files| ==> IsName(names[k]) && files[k] == Join(dir, names[k])
    decreases |files|
  {
    if |files| > 0 {
      var n := |files| - 1;
      FilesFromAt(dir, files[..n], names[..n], sizes[..n]);
    }
  }

  function Sum(s: seq<nat>): nat
    decreases |s|
  {
    if |s| == 0 then 0 else Sum(s[..|s| - 1]) + s[|s| - 1]
  }

  /** Appending one size adds it to the total. */
  lemma SumAppend(s: seq<nat>, x: nat)
    ensures Sum(s + [x]) == Sum(s) + x
  {
    assert (s + [x])[..|s|] == s;
  }

  /** Appending one entry of `dir` to consistent file lists keeps them consistent. */
  lemma FilesAppend(dir: string, files: seq<string>, names: seq<string>, sizes: seq<nat>, p: string, sz: nat)
    requires FilesFrom(dir, files, names, sizes) && IsName(p)
    ensures FilesFrom(dir, files + [Join(dir, p)], names + [p], sizes + [sz])
  {
    assert (files + [Join(dir, p)])[..|files|] == files && (names + [p])[..|files|] == names;
    assert (sizes + [sz])[..|files|] == sizes;
  }

  // ---------------------------------------------------------------- load

  /** Does a line of an ignore file yield a pattern (not blank, not a `#` comment)? */
  predicate Keeps(line: string)
  {
    var s := Strip(line);
    |s| > 0 && s[0] != '#'
  }

  /** The patterns of the given lines, in order: each kept line, stripped. */
  function Patterns(lines: seq<string>): (r: seq<string>)
    ensures forall k :: 0 <= k < |r| ==> r[k] != "" && r[k][0] != '#'
    decreases |lines|
  {
    if |lines| == 0 then []
    else
      var last := lines[|lines| - 1];
      Patterns(lines[..|lines| - 1]) + (if Keeps(last) then [Strip(last)] else [])
  }

  /** What `Ignore.load` makes of the text of an ignore file. */
  function ParseIgnoreFile(text: string): seq<string>
  {
    Patterns(SplitOn(text, '\n'))
  }

  // ------------------------------------------------------------- messages

  function DigitChar(d: nat): char
    requires d < 10
  {
    ['0', '1', '2', '3', '4', '5', '6', '7', '8', '9'][d]
  }

  /** `str(n)`. */
  function Decimal(n: nat): string
    decreases n
  {
    if n < 10 then [DigitChar(n)] else Decimal(n / 10) + [DigitChar(n % 10)]
  }

  /** `Ignore.is_ignored_message` of a node at `nodePath`. */
  function IgnoredMessage(nodePath: string, path: string, pattern: string, ignoreFile: string): string
  {
    if ignoreFile == TOO_BIG then
      path + " ignored because it is too big (more than " + Decimal(MAX_FILE_SIZE) + " bytes)"
    else
      path + " ignored by pattern " + pattern + " in " + Join(nodePath, ignoreFile)
  }

  // ---------------------------------------------------------- is_ignored

  /**
   * What one pattern of `ignoreFile`, held by the node at `nodePath`, says
   * about `path`, whose path relative to the node is `rel`; `dir` is what
   * `stat` says about `path` being a directory (`None`: `stat` failed).
   */
  function PatternHit(nodePath: string, path: string, rel: string, pattern: string, ignoreFile: string,
                      dir: Option<bool>, env: Env): Option<string>
  {
    var (base, name) := Split(rel);
    if |pattern| > 0 && pattern[0] == '/' then
      if env.unfuckPath(base) == nodePath && Glob.Match(name, pattern[1..])
      then Some(IgnoredMessage(nodePath, path, pattern, ignoreFile))
      else None
    else if |pattern| > 0 && pattern[|pattern| - 1] == '/' && dir.None? then
      None
    else
      var pat := if |pattern| > 0 && pattern[|pattern| - 1] == '/' && dir == Some(true)
                 then pattern[..|pattern| - 1] else pattern;
      if Glob.Match(name, pat) || Glob.Match(rel, pat)
      then Some(IgnoredMessage(nodePath, path, pat, ignoreFile))
      else None
  }

  /** The first pattern of `pats` that hits. */
  function FirstHitIn(pats: seq<string>, ignoreFile: string, nodePath: string, path: string, rel: string,
                      dir: Option<bool>, env: Env): Option<string>
    decreases |pats|
  {
    if |pats| == 0 then None
    else
      var h := PatternHit(nodePath, path, rel, pats[0], ignoreFile, dir, env);
      if h.Some? then h else FirstHitIn(pats[1..], ignoreFile, nodePath, path, rel, dir, env)
  }

  /** The first hit over the ignore files `keys`, in that order. */
  function FirstHit(keys: seq<string>, ignores: map<string, seq<string>>, nodePath: string, path: string,
                    rel: string, dir: Option<bool>, env: Env): Option<string>
    decreases |keys|
  {
    if |keys| == 0 then None
    else
      var h := if keys[0] in ignores then FirstHitIn(ignores[keys[0]], keys[0], nodePath, path, rel, dir, env) else None;
      if h.Some? then h else FirstHit(keys[1..], ignores, nodePath, path, rel, dir, env)
  }

  /** The local part of `Ignore.is_ignored`: the message of the first matching pattern of one node. */
  function LocalMatch(nodePath: string, keys: seq<string>, ignores: map<string, seq<string>>, path: string,
                      isDir: Option<bool>, fs: Fs, env: Env): Option<string>
    requires path != ""
  {
    FirstHit(keys, ignores, nodePath, path, RelPath(path, nodePath, env.cwd), DirOf(path, isDir, fs), env)
  }

  // ------------------------------------------------------------ add_file

  /** The fate `Ignore.add_file` gives an entry. */
  datatype Fate = Blacklisted | Dots | IgnoredBy(message: string) | Unstatable | Subdirectory
                | TooBig | Accepted(size: nat) | Irregular

  function FateOf(p: string, verdict: Option<string>, st: Option<Entry>): Fate
  {
    if p in BLACKLIST then Blacklisted
    else if p == "." || p == ".." then Dots
    else if verdict.Some? then IgnoredBy(verdict.value)
    else if st.None? then Unstatable
    else match st.value
      case Dir(_) => Subdirectory
      case File(sz, _) => if sz > MAX_FILE_SIZE then TooBig else Accepted(sz)
      case Special => Irregular
  }

  /**
   * What adding the entries of a listing contributes to a node: the joined
   * paths of the accepted files and their total size, the `TOO_BIG` list
   * afterwards, and the names that became child nodes, each in order.
   */
  datatype Added = Added(files: seq<string>, size: nat, tooBig: seq<string>, subdirs: seq<string>)

  /** What `add_file` adds for the entry `p` of the directory `dir` whose fate is `f`. */
  function AddStep(a: Added, p: string, dir: string, f: Fate): Added
  {
    match f
      case Subdirectory => a.(subdirs := a.subdirs + [p])
      case TooBig => a.(tooBig := a.tooBig + [p])
      case Accepted(sz) => a.(files := a.files + [Join(dir, p)], size := a.size + sz)
      case _ => a
  }
  /**
   * The fate of the entry `p` of the directory `dir`, given the ignore
   * lists `order`/`ign` there and `up`, what the parent chain says about it.
   */
  function FateAt(dir: string, p: string, order: seq<string>, ign: map<string, seq<string>>, up: Option<string>,
                  fs: Fs, env: Env): Fate
    requires IsName(p)
  {
    var pp := Join(dir, p);
    var local := LocalMatch(dir, order, ign, pp, None, fs, env);
    FateOf(p, if local.Some? then local else up, Stat(fs, pp))
  }

  /**
   * The loop of `Ignore.__init__` over a listing of `dir`: what its first
   * `n` entries add, from the ignore lists `order` and `ign`; `ups[i]` is
   * what the parent chain says about entry `i`.
   */
  function AddedFrom(dir: string, names: seq<string>, ups: seq<Option<string>>, n: nat, order: seq<string>,
                     ign: map<string, seq<string>>, fs: Fs, env: Env): Added
    requires n <= |ups| == |names| && forall k :: 0 <= k < |names| ==> IsName(names[k])
    decreases n, 0
  {
    if n == 0 then Added([], 0, TooBigOf(ign), []) else Turn(dir, names, ups, n - 1, order, ign, fs, env)
  }

  /** One turn of that loop: entry `j` meets its fate on top of what the entries before it added. */
  function Turn(dir: string, names: seq<string>, ups: seq<Option<string>>, j: nat, order: seq<string>,
                ign: map<string, seq<string>>, fs: Fs, env: Env): Added
    requires j < |ups| == |names| && forall k :: 0 <= k < |names| ==> IsName(names[k])
    decreases j, 2
  {
    AddStep(AddedFrom(dir, names, ups, j, order, ign, fs, env), names[j], dir, FateAfter(dir, names, ups, j, order, ign, fs, env))
  }

  /** The fate of entry `n` of that listing: it meets the `TOO_BIG` list the entries before it left. */
  function FateAfter(dir: string, names: seq<string>, ups: seq<Option<string>>, n: nat, order: seq<string>,
                     ign: map<string, seq<string>>, fs: Fs, env: Env): Fate
    requires n < |ups| == |names| && forall k :: 0 <= k < |names| ==> IsName(names[k])
    decreases n, 1
  {
    var a := AddedFrom(dir, names, ups, n, order, ign, fs, env);
    FateAt(dir, names[n], order, ign[TOO_BIG := a.tooBig], ups[n], fs, env)
  }

  /** The fold over one more entry is one more step, with the fate that entry meets. */
  lemma AddedNext(dir: string, names: seq<string>, ups: seq<Option<string>>, j: nat, order: seq<string>,
                  ign: map<string, seq<string>>, fs: Fs, env: Env)
    requires j < |ups| == |names| && forall k :: 0 <= k < |names| ==> IsName(names[k])
    ensures var a := AddedFrom(dir, names, ups, j, order, ign, fs, env);
            AddedFrom(dir, names, ups, j + 1, order, ign, fs, env)
            == AddStep(a, names[j], dir, FateAt(dir, names[j], order, ign[TOO_BIG := a.tooBig], ups[j], fs, env))
  {
    assert AddedFrom(dir, names, ups, j + 1, order, ign, fs, env) == Turn(dir, names, ups, j, order, ign, fs, env);
    var a := AddedFrom(dir, names, ups, j, order, ign, fs, env);
    assert FateAfter(dir, names, ups, j, order, ign, fs, env) == FateAt(dir, names[j], order, ign[TOO_BIG := a.tooBig], ups[j], fs, env);
  }

  /** The keys of a dictionary with keys `order` after storing under each of `ks` in turn. */
  function NewKeys(order: seq<string>, ks: seq<string>): seq<string>
    decreases |ks|
  {
    if |ks| == 0 then order
    else
      var o := NewKeys(order, ks[..|ks| - 1]);
      if ks[|ks| - 1] in o then o else o + [ks[|ks| - 1]]
  }

  /** The `TOO_BIG` list of a node's ignore lists. */
  function TooBigOf(ign: map<string, seq<string>>): seq<string>
  {
    if TOO_BIG in ign then ign[TOO_BIG] else []
  }

  /** The sizes `fs` records for the regular files among `paths`, added up. */
  function SizeOf(fs: Fs, paths: seq<string>): nat
    decreases |paths|
  {
    if |paths| == 0 then 0
    else
      var q := paths[|paths| - 1];
      SizeOf(fs, paths[..|paths| - 1]) + (if q in fs && fs[q].File? then fs[q].size else 0)
  }

  /** Sizes that are those `fs` records for the paths add up to `SizeOf`. */
  lemma {:induction false} SumSizes(fs: Fs, paths: seq<string>, sizes: seq<nat>)
    requires |paths| == |sizes|
    requires forall k :: 0 <= k < |paths| ==> FileOf(fs, paths[k], sizes[k])
    ensures Sum(sizes) == SizeOf(fs, paths)
    decreases |paths|
  {
    if |paths| > 0 {
      var n := |paths| - 1;
      SumSizes(fs, paths[..n], sizes[..n]);
    }
  }

  // ------------------------------------------------------------ __init__

  /** The ignore files of `IGNORE_FILES` (a prefix of it here) that can be read in `dir`, in order. */
  function LoadedKeys(dir: string, fs: Fs, names: seq<string>): seq<string>
    decreases |names|
  {
    if |names| == 0 then []
    else
      var last := names[|names| - 1];
      LoadedKeys(dir, fs, names[..|names| - 1]) + (if ReadText(fs, Join(dir, last)).Some? then [last] else [])
  }

  /** Their pattern lists, stored over the lists `base` a node starts with. */
  function LoadedMap(dir: string, fs: Fs, names: seq<string>, base: map<string, seq<string>>): map<string, seq<string>>
    decreases |names|
  {
    if |names| == 0 then base
    else
      var last := names[|names| - 1];
      var m := LoadedMap(dir, fs, names[..|names| - 1], base);
      var t := ReadText(fs, Join(dir, last));
      if t.Some? then m[last := ParseIgnoreFile(t.value)] else m
  }

  /** The built-in lists a new node starts with. */
  function BaseKeys(isRoot: bool): seq<string>
  {
    if isRoot then [TOO_BIG, DEFAULT] else [TOO_BIG]
  }

  function BaseMap(isRoot: bool): map<string, seq<string>>
  {
    if isRoot then map[TOO_BIG := [], DEFAULT := BLACKLIST] else map[TOO_BIG := []]
  }

  /** The ignore files of a new node at `dir`, in dictionary order, before any entry is added. */
  function InitKeys(dir: string, isRoot: bool, fs: Fs): seq<string>
  {
    BaseKeys(isRoot) + (if Listing(fs, dir).Some? then LoadedKeys(dir, fs, IGNORE_FILES) else [])
  }

  /** Their pattern lists. */
  function InitMap(dir: string, isRoot: bool, fs: Fs): map<string, seq<string>>
  {
    if Listing(fs, dir).Some? then LoadedMap(dir, fs, IGNORE_FILES, BaseMap(isRoot)) else BaseMap(isRoot)
  }

  /** The ignore-file names are distinct and differ from the built-in list names. */
  lemma IgnoreFileNames()
    ensures Distinct(IGNORE_FILES)
    ensures forall i :: 0 <= i < |IGNORE_FILES| ==> IGNORE_FILES[i] != TOO_BIG && IGNORE_FILES[i] != DEFAULT
  {
    assert IGNORE_FILES[0][1] == 'g' && IGNORE_FILES[1][1] == 'h';
    assert IGNORE_FILES[2][2] == 'l' && IGNORE_FILES[3][2] == 'l';
    assert IGNORE_FILES[2][3] == 'i' && IGNORE_FILES[3][3] == 'o';
    assert TOO_BIG[0] == '/' && DEFAULT[0] == '/';
  }

  lemma BaseOk(isRoot: bool)
    ensures DictOk(BaseMap(isRoot), BaseKeys(isRoot))
  {
    assert TOO_BIG[1] != DEFAULT[1];
    if isRoot {
      assert BaseMap(isRoot) - {DEFAULT} == BaseMap(false);
      assert [TOO_BIG, DEFAULT][..1] == [TOO_BIG];
    }
    var m: map<string, seq<string>> := map[TOO_BIG := []];
    assert m - {TOO_BIG} == map[];
  }

  lemma LoadedStep(dir: string, fs: Fs, names: seq<string>, i: nat, base: map<string, seq<string>>)
    requires i < |names|
    ensures LoadedKeys(dir, fs, names[..i + 1])
            == LoadedKeys(dir, fs, names[..i]) + (if ReadText(fs, Join(dir, names[i])).Some? then [names[i]] else [])
    ensures var t := ReadText(fs, Join(dir, names[i]));
            LoadedMap(dir, fs, names[..i + 1], base)
            == if t.Some? then LoadedMap(dir, fs, names[..i], base)[names[i] := ParseIgnoreFile(t.value)]
               else LoadedMap(dir, fs, names[..i], base)
  {
    assert names[..i + 1][..i] == names[..i];
  }

  lemma {:induction false} LoadedKeysFrom(dir: string, fs: Fs, names: seq<string>, base: map<string, seq<string>>)
    ensures forall k :: k in LoadedMap(dir, fs, names, base) <==> k in base || k in LoadedKeys(dir, fs, names)
    ensures forall k :: k in LoadedKeys(dir, fs, names) ==> exists j :: 0 <= j < |names| && names[j] == k
    decreases |names|
  {
    if |names| > 0 {
      LoadedKeysFrom(dir, fs, names[..|names| - 1], base);
    }
  }

  /** A name neither built in nor among the names before it is not yet a key of the loaded lists. */
  lemma LoadedFresh(dir: string, fs: Fs, names: seq<string>, i: nat, base: map<string, seq<string>>)
    requires Distinct(names) && i < |names| && names[i] !in base
    ensures names[i] !in LoadedMap(dir, fs, names[..i], base)
  {
    LoadedKeysFrom(dir, fs, names[..i], base);
  }

  /**
   * The line loop of `Ignore.load`: split the text at newlines, strip each
   * line, drop blank lines and `#` comments. The source appends each kept
   * line to `self.ignores[ignore_file]` in turn; nothing reads that list in
   * between, so here the list is gathered first and stored by the caller.
   */
  method ReadPatterns(text: string) returns (pats: seq<string>)
    ensures pats == ParseIgnoreFile(text)
  {
    var lines := SplitOn(text, '\n');
    pats := [];
    var i := 0;
    while i < |lines|
      invariant 0 <= i <= |lines|
      invariant pats == Patterns(lines[..i])
    {
      PatternsAt(lines, i);
      var s := Strip(lines[i]);
      if |s| != 0 && s[0] != '#' {
        pats := pats + [s];
      }
      i := i + 1;
    }
    assert lines[..i] == lines;
  }

  /** One directory of the tree. */
  class Ignore {
    const parent: Ignore?
    const path: string
    ghost const depth: nat
    ghost const ancestors: set<Ignore>

    var size: nat
    var files: seq<string>
    ghost var fileNames: seq<string>
    ghost var fileSizes: seq<nat>
    var children: map<string, Ignore>
    var childOrder: seq<string>
    var ignores: map<string, seq<string>>
    var ignoreOrder: seq<string>
    ghost var Repr: set<Ignore>

    /** The parent chain is finite and `ancestors` covers it. */
    ghost predicate Chain()
      decreases depth
    {
      this !in ancestors &&
      (parent != null ==>
         parent in ancestors && parent.ancestors <= ancestors && parent.depth < depth && parent.Chain())
    }

    /** The node's own invariant. */
    ghost predicate LocalValid()
      reads this
    {
      TOO_BIG in ignores && DictOk(ignores, ignoreOrder) && DictOk(children, childOrder)
      && size == Sum(fileSizes) && FilesFrom(path, files, fileNames, fileSizes)
    }

    /** Every accepted file is a regular file of `fs`, of the size recorded for it. */
    ghost predicate SizesIn(fs: Fs)
      reads this
    {
      |fileSizes| == |files| &&
      forall k :: 0 <= k < |files| ==> FileOf(fs, files[k], fileSizes[k])
    }

    /** `size` is the total that `fs` records for the accepted files. */
    lemma SizeInFs(fs: Fs)
      requires LocalValid() && SizesIn(fs)
      ensures size == SizeOf(fs, files)
    {
      SumSizes(fs, files, fileSizes);
    }

    /** The ignore lists of a new node once its ignore files are loaded; only `TOO_BIG` grows afterwards. */
    ghost predicate Started(isRoot: bool, fs: Fs)
      reads this
    {
      ignoreOrder == InitKeys(path, isRoot, fs) && TOO_BIG in ignores
      && ignores == InitMap(path, isRoot, fs)[TOO_BIG := ignores[TOO_BIG]]
    }

    /**
     * The state `Ignore.__init__` leaves: the loaded ignore lists and, when
     * recursing into a directory that can be listed, what adding its entries
     * in listing order gives; otherwise no entries at all.
     */
    ghost predicate Initialized(isRoot: bool, recurse: bool, fs: Fs, env: Env)
      reads this, ancestors
      requires Chain() && FsOk(fs)
    {
      Started(isRoot, fs) && SizesIn(fs)
      && if recurse && Listing(fs, path).Some? then
           var names := Listing(fs, path).value;
           var a := AddedFrom(path, names, UpwardAll(names, fs, env), |names|, InitKeys(path, isRoot, fs), InitMap(path, isRoot, fs), fs, env);
           files == a.files && size == a.size && ignores[TOO_BIG] == a.tooBig
           && childOrder == NewKeys([], a.subdirs)
           && (forall k :: k in children <==> k in a.subdirs)
           && forall k :: k in children ==> children[k].parent == this && children[k].path == env.unfuckPath(Join(path, k))
         else
           ignores[TOO_BIG] == [] && files == [] && size == 0 && children == map[]
    }

    /** The invariant of the subtree rooted here. */
    ghost predicate Valid()
      reads this, Repr
      decreases Repr, 1
    {
      this in Repr && LocalValid() && ChildrenValid()
    }

    /** Every child is a valid subtree of this node whose footprint lies inside this one's. */
    ghost predicate ChildrenValid()
      reads this`children, this`Repr, Repr - {this}
      decreases Repr, 0
    {
      this in Repr &&
      forall k :: k in children ==>
        children[k] in Repr && children[k] != this && children[k].Repr <= Repr && this !in children[k].Repr
        && children[k].parent == this && children[k].Valid()
    }

    /** `Ignore.is_ignored`: the first local match, or else what the parent says. */
    function IgnoredBy(p: string, isDir: Option<bool>, fs: Fs, env: Env): Option<string>
      reads this, ancestors
      requires Chain() && p != ""
      decreases depth, 1
    {
      var local := LocalMatch(path, ignoreOrder, ignores, p, isDir, fs, env);
      if local.Some? then local else Above(p, fs, env)
    }

    /** What the ancestors of this node say about `p`: the parent's `is_ignored`, or nothing at the root. */
    function Above(p: string, fs: Fs, env: Env): Option<string>
      reads ancestors
      requires Chain() && p != ""
      decreases depth, 0
    {
      if parent != null then parent.IgnoredBy(p, None, fs, env) else None
    }

    /** `Ignore.__init__`; subdirectories are built `fuel` levels deep, deeper ones with `recurse` off. */
    constructor (path0: string, parent: Ignore?, recurse: bool, fs: Fs, env: Env, fuel: nat)
      requires parent != null ==> parent.Chain()
      requires FsOk(fs)
      ensures Valid()
      ensures Chain()
      ensures fresh(Repr)
      ensures this.parent == parent
      ensures path == env.unfuckPath(path0)
      ensures Initialized(parent == null, recurse, fs, env)
      decreases fuel, if recurse then 9 else 1
    {
      this.parent := parent;
      path := env.unfuckPath(path0);
      depth := if parent == null then 0 else parent.depth + 1;
      ancestors := if parent == null then {} else parent.ancestors + {parent};
      size := 0;
      files, fileNames, fileSizes := [], [], [];
      children, childOrder := map[], [];
      ignores := BaseMap(parent == null);
      ignoreOrder := BaseKeys(parent == null);
      new;
      Repr := {this};
      BaseOk(parent == null);
      Populate(recurse, fs, env, fuel);
    }

    /** The part of `Ignore.__init__` after the fields are set: list the directory, load its ignore files, add its entries. */
    method Populate(recurse: bool, fs: Fs, env: Env, fuel: nat)
      requires Valid() && Chain() && FsOk(fs) && Repr == {this}
      requires ignoreOrder == BaseKeys(parent == null) && ignores == BaseMap(parent == null)
      requires files == [] && size == 0 && children == map[] && childOrder == []
      modifies this
      ensures Valid()
      ensures fresh(Repr - {this}) && this in Repr
      ensures Initialized(parent == null, recurse, fs, env)
      decreases fuel, if recurse then 8 else 0
    {
      InitBuiltins(path, parent == null, fs);
      var listing := Listing(fs, path);
      if listing.None? {
        return;
      }
      IgnoreFileNames();
      LoadIgnoreFiles(IGNORE_FILES, fs);
      if recurse {
        AddListing(listing.value, fs, env, fuel);
      }
    }

    /** The loop of `Ignore.__init__` over the listing `names` of its directory, once the ignore files are loaded. */
    method AddListing(names: seq<string>, fs: Fs, env: Env, fuel: nat)
      requires Valid() && Chain() && FsOk(fs) && Repr == {this}
      requires Listing(fs, path) == Some(names)
      requires ignoreOrder == InitKeys(path, parent == null, fs) && ignores == InitMap(path, parent == null, fs)
      requires files == [] && size == 0 && children == map[] && childOrder == []
      modifies this
      ensures Valid()
      ensures fresh(Repr - {this}) && this in Repr
      ensures Initialized(parent == null, true, fs, env)
      decreases fuel, 7
    {
      ghost var ups := UpwardAll(names, fs, env);
      UpwardAllOk(names, |names|, fs, env);
      ghost var keys, m := ignoreOrder, ignores;
      AddEntries(names, ups, fs, env, fuel);
      assert UpsOk(names, ups, |names|, fs, env);
      InitializedBy(names, ups, keys, m, fs, env);
    }

    /** The state adding the listing leaves, given the ignore lists `keys`/`m` and the verdicts `ups`, is the one `Initialized` describes. */
    lemma InitializedBy(names: seq<string>, ups: seq<Option<string>>, keys: seq<string>, m: map<string, seq<string>>, fs: Fs, env: Env)
      requires Chain() && FsOk(fs) && Listing(fs, path) == Some(names)
      requires keys == InitKeys(path, parent == null, fs) && m == InitMap(path, parent == null, fs)
      requires |ups| == |names| && UpsOk(names, ups, |names|, fs, env) && SizesIn(fs)
      requires Grew(AddedFrom(path, names, ups, |names|, keys, m, fs, env), [], 0, keys, m, [], map[], env)
      ensures Initialized(parent == null, true, fs, env)
    {
      InitBuiltins(path, parent == null, fs);
      UpwardAllIs(names, ups, fs, env);
      var a := AddedFrom(path, names, ups, |names|, keys, m, fs, env);
      assert [] + a.files == a.files;
    }

    /** The loop of `Ignore.__init__` over the ignore-file names; a file that cannot be read is skipped. */
    method LoadIgnoreFiles(names: seq<string>, fs: Fs)
      requires Valid() && Distinct(names)
      requires forall k :: 0 <= k < |names| ==> names[k] !in ignores
      modifies this
      ensures Valid() && Repr == old(Repr)
      ensures ignoreOrder == old(ignoreOrder) + LoadedKeys(path, fs, names)
      ensures ignores == LoadedMap(path, fs, names, old(ignores))
      ensures files == old(files) && size == old(size) && children == old(children)
    {
      var i := 0;
      while i < |names|
        invariant 0 <= i <= |names|
        invariant Valid() && Repr == old(Repr)
        invariant ignoreOrder == old(ignoreOrder) + LoadedKeys(path, fs, names[..i])
        invariant ignores == LoadedMap(path, fs, names[..i], old(ignores))
        invariant files == old(files)
        invariant size == old(size)
        invariant children == old(children)
      {
        LoadNext(names, i, fs, old(ignoreOrder), old(ignores));
        i := i + 1;
      }
      assert names[..i] == names;
    }

    /** One turn of that loop: load `names[i]` on top of the lists loaded from `names[..i]`. */
    method LoadNext(names: seq<string>, i: nat, fs: Fs, ghost order0: seq<string>, ghost base: map<string, seq<string>>)
      requires Valid() && Distinct(names) && i < |names| && names[i] !in base
      requires ignoreOrder == order0 + LoadedKeys(path, fs, names[..i])
      requires ignores == LoadedMap(path, fs, names[..i], base)
      modifies this
      ensures Valid() && Repr == old(Repr)
      ensures ignoreOrder == order0 + LoadedKeys(path, fs, names[..i + 1])
      ensures ignores == LoadedMap(path, fs, names[..i + 1], base)
      ensures files == old(files) && size == old(size) && children == old(children)
    {
      LoadedStep(path, fs, names, i, base);
      LoadedFresh(path, fs, names, i, base);
      ghost var keys := LoadedKeys(path, fs, names[..i]);
      var ok := Load(names[i], fs);
      if ok {
        assert order0 + (keys + [names[i]]) == order0 + keys + [names[i]];
      }
    }

    /**
     * The node holds `a` on top of the state it had before its entries were
     * added: `files0`, `size0`, the ignore lists `order0`/`ign0` and the
     * children `children0` in the order `childOrder0`.
     */
    ghost predicate Grew(a: Added, files0: seq<string>, size0: nat, order0: seq<string>, ign0: map<string, seq<string>>,
                         childOrder0: seq<string>, children0: map<string, Ignore>, env: Env)
      reads this
    {
      files == files0 + a.files && size == size0 + a.size
      && ignoreOrder == order0 && ignores == ign0[TOO_BIG := a.tooBig]
      && childOrder == NewKeys(childOrder0, a.subdirs)
      && (forall k :: k in children <==> k in children0 || k in a.subdirs)
      && (forall k :: k in children0 && k !in a.subdirs ==> children[k] == children0[k])
      && forall k :: k in a.subdirs ==> children[k].parent == this && children[k].path == env.unfuckPath(Join(path, k))
    }

    /** The state after the first `j` entries of `names` were added on top of `order0`/`ign0` and the earlier state. */
    ghost predicate Progress(names: seq<string>, ups: seq<Option<string>>, j: nat, a: Added, files0: seq<string>, size0: nat,
                             order0: seq<string>, ign0: map<string, seq<string>>, childOrder0: seq<string>,
                             children0: map<string, Ignore>, sized: bool, fs: Fs, env: Env)
      reads this, Repr
    {
      j <= |names| == |ups| && (forall k :: 0 <= k < |names| ==> IsName(names[k]))
      && Valid() && a == AddedFrom(path, names, ups, j, order0, ign0, fs, env)
      && Grew(a, files0, size0, order0, ign0, childOrder0, children0, env)
      && (sized ==> SizesIn(fs))
    }

    /** The loop of `Ignore.__init__` over the directory listing `names`; `ups[k]` is what the parent chain says about `names[k]`. */
    method AddEntries(names: seq<string>, ghost ups: seq<Option<string>>, fs: Fs, env: Env, fuel: nat)
      requires Valid() && Chain() && FsOk(fs)
      requires forall k :: 0 <= k < |names| ==> IsName(names[k])
      requires |ups| == |names| && UpsOk(names, ups, |names|, fs, env)
      modifies this
      ensures Valid() && fresh(Repr - old(Repr))
      ensures var a := AddedFrom(path, names, ups, |names|, old(ignoreOrder), old(ignores), fs, env);
              Grew(a, old(files), old(size), old(ignoreOrder), old(ignores), old(childOrder), old(children), env)
      ensures old(SizesIn(fs)) ==> SizesIn(fs)
      decreases fuel, 6
    {
      ghost var files0, size0, order0, ign0, childOrder0, children0 := files, size, ignoreOrder, ignores, childOrder, children;
      ghost var sized := SizesIn(fs);
      assert ign0[TOO_BIG := ign0[TOO_BIG]] == ign0;
      ghost var a := AddedFrom(path, names, ups, 0, order0, ign0, fs, env);
      var j := 0;
      while j < |names|
        invariant Progress(names, ups, j, a, files0, size0, order0, ign0, childOrder0, children0, sized, fs, env)
        invariant fresh(Repr - old(Repr))
      {
        a := AddNext(names, j, ups, fs, env, fuel, a, files0, size0, order0, ign0, childOrder0, children0, sized);
        j := j + 1;
      }
      assert j == |names|;
    }

    /**
     * One turn of that loop: `self.add_file(names[j])` after the entries
     * before it, which left `a`; `ups[j]` is what the parent chain says
     * about the entry.
     */
    method AddNext(names: seq<string>, j: nat, ghost ups: seq<Option<string>>, fs: Fs, env: Env, fuel: nat, ghost a: Added,
                   ghost files0: seq<string>, ghost size0: nat, ghost order0: seq<string>, ghost ign0: map<string, seq<string>>,
                   ghost childOrder0: seq<string>, ghost children0: map<string, Ignore>, ghost sized: bool) returns (ghost a': Added)
      requires Chain() && FsOk(fs) && j < |names|
      requires Progress(names, ups, j, a, files0, size0, order0, ign0, childOrder0, children0, sized, fs, env)
      requires UpsOk(names, ups, |names|, fs, env)
      modifies this
      ensures Progress(names, ups, j + 1, a', files0, size0, order0, ign0, childOrder0, children0, sized, fs, env)
      ensures fresh(Repr - old(Repr))
      decreases fuel, 5
    {
      DictKeys(children, childOrder);
      ghost var files1, size1, order1, ign1, childOrder1, children1 := files, size, ignoreOrder, ignores, childOrder, children;
      UpsAt(names, ups, |names|, j, fs, env);
      ghost var fate := AddFile(names[j], fs, env, fuel);
      AddedNext(path, names, ups, j, order0, ign0, fs, env);
      a' := AddedFrom(path, names, ups, j + 1, order0, ign0, fs, env);
      GrewStep(a, names[j], fate, files1, size1, order1, ign1, childOrder1, children1, files0, size0, order0, ign0, childOrder0, children0, env);
    }

    /** The bookkeeping of one turn: the state `add_file` leaves, given the fate of its entry, is one more step of the fold. */
    lemma GrewStep(a: Added, p: string, fate: Fate, files1: seq<string>, size1: nat, order1: seq<string>,
                   ign1: map<string, seq<string>>, childOrder1: seq<string>, children1: map<string, Ignore>,
                   files0: seq<string>, size0: nat, order0: seq<string>,
                   ign0: map<string, seq<string>>, childOrder0: seq<string>, children0: map<string, Ignore>, env: Env)
      requires files1 == files0 + a.files && size1 == size0 + a.size
      requires order1 == order0 && ign1 == ign0[TOO_BIG := a.tooBig]
      requires childOrder1 == NewKeys(childOrder0, a.subdirs)
      requires forall k :: k in children1 <==> k in children0 || k in a.subdirs
      requires forall k :: k in children0 && k !in a.subdirs ==> children1[k] == children0[k]
      requires forall k :: k in a.subdirs ==> children1[k].parent == this && children1[k].path == env.unfuckPath(Join(path, k))
      requires ignoreOrder == order1
      requires fate == Subdirectory ==>
                p in children && children[p].parent == this && children[p].path == env.unfuckPath(Join(path, p))
      requires fate == Subdirectory ==>
                children == children1[p := children[p]]
                && childOrder == if p in children1 then childOrder1 else childOrder1 + [p]
      requires fate != Subdirectory ==> children == children1
      requires fate != Subdirectory ==> childOrder == childOrder1
      requires fate == TooBig ==> ignores == ign1[TOO_BIG := ign1[TOO_BIG] + [p]]
      requires fate != TooBig ==> ignores == ign1
      requires fate.Accepted? ==> files == files1 + [Join(path, p)]
      requires fate.Accepted? ==> size == size1 + fate.size
      requires !fate.Accepted? ==> files == files1
      requires !fate.Accepted? ==> size == size1
      requires p in children1 <==> p in childOrder1
      ensures Grew(AddStep(a, p, path, fate), files0, size0, order0, ign0, childOrder0, children0, env)
    {
      var a' := AddStep(a, p, path, fate);
      if fate == Subdirectory {
        assert (a.subdirs + [p])[..|a.subdirs|] == a.subdirs;
        forall k | k in a'.subdirs
          ensures children[k].parent == this && children[k].path == env.unfuckPath(Join(path, k))
        {
          if k != p {
            assert k in a.subdirs;
          }
        }
      }
      if fate == TooBig {
        assert ign1[TOO_BIG] == a.tooBig;
      }
    }

    /** `Ignore.load`: read an ignore file of this directory and keep its patterns. */
    method Load(ignoreFile: string, fs: Fs) returns (ok: bool)
      requires Valid()
      modifies this
      ensures Valid() && Repr == old(Repr)
      ensures ok <==> ReadText(fs, Join(path, ignoreFile)).Some?
      ensures ok ==> ignores == old(ignores)[ignoreFile := ParseIgnoreFile(ReadText(fs, Join(path, ignoreFile)).value)]
      ensures ok ==> ignoreOrder == if ignoreFile in old(ignores) then old(ignoreOrder) else old(ignoreOrder) + [ignoreFile]
      ensures !ok ==> ignores == old(ignores) && ignoreOrder == old(ignoreOrder)
      ensures size == old(size) && files == old(files) && fileNames == old(fileNames) && fileSizes == old(fileSizes)
      ensures children == old(children) && childOrder == old(childOrder)
    {
      var text := ReadText(fs, Join(path, ignoreFile));
      if text.None? {
        return false;
      }
      var pats := ReadPatterns(text.value);
      Store(ignoreFile, pats);
      return true;
    }

    /** `self.ignores[ignore_file] = pats`: a new key goes to the end of the dictionary order. */
    method Store(ignoreFile: string, pats: seq<string>)
      requires Valid()
      modifies this
      ensures Valid() && Repr == old(Repr)
      ensures ignores == old(ignores)[ignoreFile := pats]
      ensures ignoreOrder == if ignoreFile in old(ignores) then old(ignoreOrder) else old(ignoreOrder) + [ignoreFile]
      ensures size == old(size) && files == old(files) && fileNames == old(fileNames) && fileSizes == old(fileSizes)
      ensures children == old(children) && childOrder == old(childOrder)
    {
      DictPut(ignores, ignoreOrder, ignoreFile, pats);
      if ignoreFile !in ignores {
        ignoreOrder := ignoreOrder + [ignoreFile];
      }
      ignores := ignores[ignoreFile := pats];
    }

    /** `Ignore.is_ignored`, looping over the ignore files and their patterns as the source does. */
    method IsIgnored(p: string, isDir: Option<bool>, fs: Fs, env: Env) returns (r: Option<string>)
      requires Chain() && p != ""
      ensures r == IgnoredBy(p, isDir, fs, env)
      decreases depth
    {
      var rel := RelPath(p, path, env.cwd);
      ghost var dir := DirOf(p, isDir, fs);
      var known := isDir;
      var i := 0;
      while i < |ignoreOrder|
        invariant 0 <= i <= |ignoreOrder|
        invariant DirOf(p, known, fs) == dir
        invariant LocalMatch(path, ignoreOrder, ignores, p, isDir, fs, env)
                  == FirstHit(ignoreOrder[i..], ignores, path, p, rel, dir, env)
      {
        var key := ignoreOrder[i];
        if key in ignores {
          r, known := MatchFile(key, ignores[key], p, rel, known, fs, env);
          if r.Some? {
            return;
          }
        }
        assert ignoreOrder[i..][1..] == ignoreOrder[i + 1..];
        i := i + 1;
      }
      if parent != null {
        r := parent.IsIgnored(p, None, fs, env);
      } else {
        r := None;
      }
    }

    /**
     * The inner loop of `Ignore.is_ignored` over the patterns of one ignore
     * file; `known` is what is known of `p` being a directory so far, and is
     * updated once `stat` has been called.
     */
    method MatchFile(key: string, pats: seq<string>, p: string, rel: string, known: Option<bool>, fs: Fs, env: Env)
      returns (r: Option<string>, known': Option<bool>)
      ensures r == FirstHitIn(pats, key, path, p, rel, DirOf(p, known, fs), env)
      ensures DirOf(p, known', fs) == DirOf(p, known, fs)
    {
      ghost var dir := DirOf(p, known, fs);
      known' := known;
      var j := 0;
      while j < |pats|
        invariant 0 <= j <= |pats|
        invariant DirOf(p, known', fs) == dir
        invariant FirstHitIn(pats, key, path, p, rel, dir, env) == FirstHitIn(pats[j..], key, path, p, rel, dir, env)
      {
        r, known' := MatchPattern(pats[j], key, p, rel, known', fs, env);
        if r.Some? {
          return;
        }
        assert pats[j..][1..] == pats[j + 1..];
        j := j + 1;
      }
      r := None;
    }

    /** One pattern of `Ignore.is_ignored`: `stat` is called only for a pattern ending in `/` while nothing is known. */
    method MatchPattern(pattern: string, key: string, p: string, rel: string, known: Option<bool>, fs: Fs, env: Env)
      returns (r: Option<string>, known': Option<bool>)
      ensures r == PatternHit(path, p, rel, pattern, key, DirOf(p, known, fs), env)
      ensures DirOf(p, known', fs) == DirOf(p, known, fs)
    {
      known' := known;
      var (base, name) := Split(rel);
      if |pattern| > 0 && pattern[0] == '/' {
        if env.unfuckPath(base) == path && Glob.Match(name, pattern[1..]) {
          return Some(IgnoredMessage(path, p, pattern, key)), known';
        }
        return None, known';
      }
      var pat := pattern;
      if |pattern| > 0 && pattern[|pattern| - 1] == '/' {
        if known'.None? {
          if p in fs {
            known' := Some(fs[p].Dir?);
          } else {
            return None, known';
          }
        }
        if known' == Some(true) {
          pat := pattern[..|pattern| - 1];
        }
      }
      if Glob.Match(name, pat) {
        return Some(IgnoredMessage(path, p, pat, key)), known';
      }
      if Glob.Match(rel, pat) {
        return Some(IgnoredMessage(path, p, pat, key)), known';
      }
      r := None;
    }

    /** What the parent chain says about the entry `p` (`self.parent.is_ignored(p_path)`); nothing at the root. */
    ghost function Upward(p: string, fs: Fs, env: Env): Option<string>
      reads ancestors
      requires Chain() && IsName(p)
    {
      JoinName(path, p);
      Above(Join(path, p), fs, env)
    }

    /** What the parent chain says about each entry of `names`, in this directory. */
    ghost function UpwardAll(names: seq<string>, fs: Fs, env: Env): (r: seq<Option<string>>)
      reads ancestors
      requires Chain() && forall k :: 0 <= k < |names| ==> IsName(names[k])
      ensures |r| == |names|
      decreases |names|
    {
      if |names| == 0 then []
      else
        var n := |names| - 1;
        assert forall k :: 0 <= k < n ==> names[..n][k] == names[k];
        UpwardAll(names[..n], fs, env) + [Upward(names[n], fs, env)]
    }

    /** Its `i`-th element is what the parent chain says about `names[i]`. */
    lemma {:induction false} UpwardAllAt(names: seq<string>, i: nat, fs: Fs, env: Env)
      requires Chain() && i < |names| && forall k :: 0 <= k < |names| ==> IsName(names[k])
      ensures UpwardAll(names, fs, env)[i] == Upward(names[i], fs, env)
      decreases |names|
    {
      var n := |names| - 1;
      if i < n {
        assert forall k :: 0 <= k < n ==> names[..n][k] == names[k];
        UpwardAllAt(names[..n], i, fs, env);
      }
    }

    /** `ups[k]` is what the parent chain says about `names[k]`, for each of the first `n` entries. */
    ghost predicate UpsOk(names: seq<string>, ups: seq<Option<string>>, n: nat, fs: Fs, env: Env)
      reads ancestors
      requires Chain() && n <= |names| && forall k :: 0 <= k < |names| ==> IsName(names[k])
      decreases n
    {
      n == 0 || (UpsOk(names, ups, n - 1, fs, env) && n - 1 < |ups| && ups[n - 1] == Upward(names[n - 1], fs, env))
    }

    /** What `UpsOk` says about one entry. */
    lemma {:induction false} UpsAt(names: seq<string>, ups: seq<Option<string>>, n: nat, j: nat, fs: Fs, env: Env)
      requires Chain() && n <= |names| && forall k :: 0 <= k < |names| ==> IsName(names[k])
      requires UpsOk(names, ups, n, fs, env) && j < n
      ensures j < |ups| && ups[j] == Upward(names[j], fs, env)
      decreases n
    {
      if j < n - 1 {
        UpsAt(names, ups, n - 1, j, fs, env);
      }
    }

    /** `UpwardAll` passes `UpsOk`. */
    lemma {:induction false} UpwardAllOk(names: seq<string>, n: nat, fs: Fs, env: Env)
      requires Chain() && n <= |names| && forall k :: 0 <= k < |names| ==> IsName(names[k])
      ensures UpsOk(names, UpwardAll(names, fs, env), n, fs, env)
      decreases n
    {
      if n > 0 {
        UpwardAllOk(names, n - 1, fs, env);
        UpwardAllAt(names, n - 1, fs, env);
      }
    }

    /** `UpwardAll` is the only list of verdicts `UpsOk` accepts. */
    lemma UpwardAllIs(names: seq<string>, ups: seq<Option<string>>, fs: Fs, env: Env)
      requires Chain() && forall k :: 0 <= k < |names| ==> IsName(names[k])
      requires |ups| == |names| && UpsOk(names, ups, |names|, fs, env)
      ensures ups == UpwardAll(names, fs, env)
    {
      forall i | 0 <= i < |names|
        ensures ups[i] == UpwardAll(names, fs, env)[i]
      {
        UpsAt(names, ups, |names|, i, fs, env);
        UpwardAllAt(names, i, fs, env);
      }
    }

    /** What `Ignore.add_file` does with the entry `p` of this node's directory, in the current state. */
    ghost function FateHere(p: string, fs: Fs, env: Env): Fate
      reads this, ancestors
      requires Chain() && IsName(p)
    {
      FateAt(path, p, ignoreOrder, ignores, Upward(p, fs, env), fs, env)
    }

    /**
     * `Ignore.add_file`: skip blacklisted names, `.` and `..`, ignored
     * paths and paths `stat` fails on; a directory becomes a child node, a
     * regular file is accepted or, above `MAX_FILE_SIZE`, listed under
     * `TOO_BIG`; anything else is dropped.
     */
    method AddFile(p: string, fs: Fs, env: Env, fuel: nat) returns (ghost fate: Fate)
      requires Valid() && Chain() && FsOk(fs) && IsName(p)
      modifies this
      ensures fate == old(FateHere(p, fs, env))
      ensures Valid()
      ensures fresh(Repr - old(Repr))
      ensures ignoreOrder == old(ignoreOrder)
      ensures ignores.Keys == old(ignores).Keys
      ensures fate == Subdirectory ==>
                p in children && fresh(children[p]) && children[p].parent == this
                && children[p].path == env.unfuckPath(Join(path, p))
      ensures fate == Subdirectory ==>
                children == old(children)[p := children[p]]
                && childOrder == if p in old(children) then old(childOrder) else old(childOrder) + [p]
      ensures fate != Subdirectory ==> children == old(children)
      ensures fate != Subdirectory ==> childOrder == old(childOrder) && Repr == old(Repr)
      ensures fate == TooBig ==> ignores == old(ignores)[TOO_BIG := old(ignores)[TOO_BIG] + [p]]
      ensures fate != TooBig ==> ignores == old(ignores)
      ensures fate.Accepted? ==> files == old(files) + [Join(path, p)]
      ensures fate.Accepted? ==> size == old(size) + fate.size
      ensures !fate.Accepted? ==> files == old(files)
      ensures !fate.Accepted? ==> size == old(size)
      ensures old(SizesIn(fs)) ==> SizesIn(fs)
      decreases fuel, 4
    {
      var f := Classify(p, fs, env);
      fate := f;
      match f {
        case Subdirectory =>
          AddChild(p, fs, env, fuel);
        case TooBig =>
          AddRegular(p, fs[Join(path, p)].size, fs);
        case Accepted(sz) =>
          AddRegular(p, sz, fs);
        case _ =>
      }
    }

    /** The checks of `Ignore.add_file`, in its order, up to and including the `stat` call. */
    method Classify(p: string, fs: Fs, env: Env) returns (fate: Fate)
      requires Chain() && IsName(p)
      ensures fate == FateHere(p, fs, env)
      ensures fate.Accepted? ==> FileOf(fs, Join(path, p), fate.size) && fate.size <= MAX_FILE_SIZE
      ensures fate == TooBig ==> Join(path, p) in fs && fs[Join(path, p)].File? && fs[Join(path, p)].size > MAX_FILE_SIZE
      ensures fate == Subdirectory ==> IsDirAt(fs, Join(path, p))
    {
      var pPath := Join(path, p);
      if p in BLACKLIST {
        return Blacklisted;
      }
      if p == "." || p == ".." {
        return Dots;
      }
      var verdict := IsIgnored(pPath, None, fs, env);
      if verdict.Some? {
        return Fate.IgnoredBy(verdict.value);
      }
      var st := Stat(fs, pPath);
      if st.None? {
        return Unstatable;
      }
      match st.value {
        case Dir(_) =>
          fate := Subdirectory;
        case File(sz, _) =>
          fate := if sz > MAX_FILE_SIZE then TooBig else Accepted(sz);
        case Special =>
          fate := Irregular;
      }
    }

    /** The regular-file branch of `Ignore.add_file`. */
    method AddRegular(p: string, sz: nat, ghost fs: Fs)
      requires Valid() && IsName(p)
      modifies this
      ensures Valid() && Repr == old(Repr)
      ensures children == old(children) && childOrder == old(childOrder) && ignoreOrder == old(ignoreOrder)
      ensures sz > MAX_FILE_SIZE ==> ignores == old(ignores)[TOO_BIG := old(ignores)[TOO_BIG] + [p]]
      ensures sz > MAX_FILE_SIZE ==> files == old(files) && size == old(size) && fileSizes == old(fileSizes)
      ensures sz <= MAX_FILE_SIZE ==> ignores == old(ignores)
      ensures sz <= MAX_FILE_SIZE ==> files == old(files) + [Join(path, p)] && size == old(size) + sz
      ensures sz <= MAX_FILE_SIZE ==> fileSizes == old(fileSizes) + [sz]
      ensures old(SizesIn(fs)) && (sz <= MAX_FILE_SIZE ==> FileOf(fs, Join(path, p), sz)) ==> SizesIn(fs)
    {
      if sz > MAX_FILE_SIZE {
        AddTooBig(p);
      } else {
        AddAccepted(p, sz, fs);
      }
    }

    /** `self.ignores[TOO_BIG].append(p)`. */
    method AddTooBig(p: string)
      requires Valid()
      modifies this
      ensures Valid() && Repr == old(Repr)
      ensures ignores == old(ignores)[TOO_BIG := old(ignores)[TOO_BIG] + [p]] && ignoreOrder == old(ignoreOrder)
      ensures children == old(children) && childOrder == old(childOrder)
      ensures files == old(files) && size == old(size) && fileNames == old(fileNames) && fileSizes == old(fileSizes)
    {
      DictPut(ignores, ignoreOrder, TOO_BIG, ignores[TOO_BIG] + [p]);
      ignores := ignores[TOO_BIG := ignores[TOO_BIG] + [p]];
    }

    /** `self.files.append(p_path)` and `self.size += size` for an accepted file. */
    method AddAccepted(p: string, sz: nat, ghost fs: Fs)
      requires Valid() && IsName(p)
      modifies this
      ensures Valid() && Repr == old(Repr)
      ensures ignores == old(ignores) && ignoreOrder == old(ignoreOrder)
      ensures children == old(children) && childOrder == old(childOrder)
      ensures files == old(files) + [Join(path, p)] && size == old(size) + sz
      ensures fileNames == old(fileNames) + [p] && fileSizes == old(fileSizes) + [sz]
      ensures old(SizesIn(fs)) && FileOf(fs, Join(path, p), sz) ==> SizesIn(fs)
    {
      var f := Join(path, p);
      SumAppend(fileSizes, sz);
      FilesAppend(path, files, fileNames, fileSizes, p, sz);
      size := size + sz;
      files := files + [f];
      fileNames := fileNames + [p];
      fileSizes := fileSizes + [sz];
    }

    /** The directory branch of `Ignore.add_file`: a new node for the subdirectory `p`, stored under `p`. */
    method AddChild(p: string, fs: Fs, env: Env, fuel: nat)
      requires Valid() && Chain() && FsOk(fs) && IsName(p)
      modifies this
      ensures Valid() && fresh(Repr - old(Repr))
      ensures p in children && fresh(children[p]) && children[p].parent == this
      ensures children[p].path == env.unfuckPath(Join(path, p))
      ensures children == old(children)[p := children[p]]
      ensures childOrder == if p in old(children) then old(childOrder) else old(childOrder) + [p]
      ensures ignores == old(ignores) && ignoreOrder == old(ignoreOrder)
      ensures files == old(files) && size == old(size)
      ensures fileNames == old(fileNames) && fileSizes == old(fileSizes)
      decreases fuel, 3
    {
      var ig := NewNode(Join(path, p), this, fs, env, fuel);
      Attach(p, ig);
    }

    /** `self.children[p] = ig` for a new valid subtree `ig` whose parent is this node. */
    method Attach(p: string, ig: Ignore)
      requires Valid() && ig.Valid() && ig.parent == this && ig.Repr !! Repr
      modifies this
      ensures Valid() && Repr == old(Repr) + ig.Repr
      ensures children == old(children)[p := ig]
      ensures childOrder == if p in old(children) then old(childOrder) else old(childOrder) + [p]
      ensures ignores == old(ignores) && ignoreOrder == old(ignoreOrder)
      ensures files == old(files) && size == old(size)
      ensures fileNames == old(fileNames) && fileSizes == old(fileSizes)
    {
      DictPut(children, childOrder, p, ig);
      if p !in children {
        childOrder := childOrder + [p];
      }
      children := children[p := ig];
      Repr := Repr + ig.Repr;
    }

    /** `Ignore(p_path, self)` for a subdirectory; `fuel` more levels are built with `recurse` on. */
    static method NewNode(p: string, parent: Ignore, fs: Fs, env: Env, fuel: nat) returns (ig: Ignore)
      requires parent.Chain() && FsOk(fs)
      ensures fresh(ig) && fresh(ig.Repr) && ig.Valid() && ig.Chain()
      ensures ig.parent == parent && ig.path == env.unfuckPath(p)
      ensures ig.Initialized(false, fuel > 0, fs, env)
      decreases fuel, 2
    {
      ig := new Ignore(p, parent, fuel > 0, fs, env, if fuel > 0 then fuel - 1 else 0);
    }
    // -------------------------------------------------------- get_children

    /** A child of a valid node is a valid subtree inside the node's footprint. */
    lemma Child(k: string)
      requires Valid() && k in children
      ensures children[k].Valid() && children[k] in Repr && children[k].Repr < Repr && this !in children[k].Repr
    {
    }

    /** Every name in the child order is a key of `children`. */
    lemma ChildKeys()
      requires Valid()
      ensures forall i :: 0 <= i < |childOrder| ==> childOrder[i] in children
    {
      DictKeys(children, childOrder);
    }

    /** The child nodes stored under `keys`, in that order (`self.children.values()` for the dictionary order). */
    function ChildList(keys: seq<string>): (r: seq<Ignore>)
      reads this
      requires forall i :: 0 <= i < |keys| ==> keys[i] in children
      ensures |r| == |keys| && forall i :: 0 <= i < |keys| ==> r[i] == children[keys[i]]
      decreases |keys|
    {
      if |keys| == 0 then [] else ChildList(keys[..|keys| - 1]) + [children[keys[|keys| - 1]]]
    }

    /**
     * `Ignore.get_children`: every node below this one, the children in
     * dictionary order first, then what each child's `get_children` gives,
     * in turn.
     */
    function GetChildren(): seq<Ignore>
      reads this, Repr
      requires Valid()
      decreases Repr, 1
    {
      ChildKeys();
      ChildList(childOrder) + DescendantsOf(childOrder, |childOrder|)
    }

    /** What `get_children` gives for each child under the first `n` of `keys`, in turn. */
    function DescendantsOf(keys: seq<string>, n: nat): seq<Ignore>
      reads this, Repr
      requires Valid() && n <= |keys| && forall i :: 0 <= i < |keys| ==> keys[i] in children
      decreases Repr, 0, n
    {
      if n == 0 then []
      else
        Child(keys[n - 1]);
        DescendantsOf(keys, n - 1) + children[keys[n - 1]].GetChildren()
    }

    // ---------------------------------------------------------- list_paths

    /**
     * `Ignore.list_paths`, as the list of everything it yields: each file
     * joined to this node's path, then what each child yields, in turn.
     */
    function ListPaths(): seq<string>
      reads this, Repr
      requires Valid()
      decreases Repr, 1
    {
      ChildKeys();
      JoinAll(path, files) + Flatten(PathLists(childOrder, |childOrder|))
    }

    /** What `list_paths` yields for each child under the first `n` of `keys`. */
    function PathLists(keys: seq<string>, n: nat): (r: seq<seq<string>>)
      reads this, Repr
      requires Valid() && n <= |keys| && forall i :: 0 <= i < |keys| ==> keys[i] in children
      ensures |r| == n
      decreases Repr, 0, n
    {
      if n == 0 then []
      else
        Child(keys[n - 1]);
        PathLists(keys, n - 1) + [children[keys[n - 1]].ListPaths()]
    }

    /** Entry `i` of `PathLists(keys, n)` is what the child under `keys[i]` yields. */
    lemma {:induction false} PathListsAt(keys: seq<string>, n: nat, i: nat)
      requires Valid() && n <= |keys| && forall j :: 0 <= j < |keys| ==> keys[j] in children
      requires i < n
      ensures children[keys[i]].Valid() && PathLists(keys, n)[i] == children[keys[i]].ListPaths()
      decreases n
    {
      Child(keys[i]);
      if i < n - 1 {
        PathListsAt(keys, n - 1, i);
      }
    }

    /** The nodes `get_children` lists are exactly those some non-empty path of child names leads to. */
    lemma GetChildrenReaches(x: Ignore)
      requires Valid()
      ensures x in GetChildren() <==> exists keys :: |keys| > 0 && Reaches(keys, x)
    {
      if x in GetChildren() {
        var keys := ListedReached(x);
      }
      if exists keys :: |keys| > 0 && Reaches(keys, x) {
        var keys :| |keys| > 0 && Reaches(keys, x);
        ReachedListed(keys, x);
      }
    }

    /** A node `get_children` lists is reached by a path of child names. */
    lemma {:induction false} ListedReached(x: Ignore) returns (keys: seq<string>)
      requires Valid() && x in GetChildren()
      ensures |keys| > 0 && Reaches(keys, x)
      decreases Repr
    {
      ChildKeys();
      if x in ChildList(childOrder) {
        var i :| 0 <= i < |childOrder| && ChildList(childOrder)[i] == x;
        Child(childOrder[i]);
        keys := [childOrder[i]];
        assert keys[1..] == [];
      } else {
        var i := DescendantsOfHas(childOrder, |childOrder|, x);
        var c := children[childOrder[i]];
        Child(childOrder[i]);
        var rest := c.ListedReached(x);
        keys := [childOrder[i]] + rest;
        assert keys[1..] == rest;
      }
    }

    /** A node a path of child names reaches is listed by `get_children`. */
    lemma {:induction false} ReachedListed(keys: seq<string>, x: Ignore)
      requires Valid() && |keys| > 0 && Reaches(keys, x)
      ensures x in GetChildren()
      decreases Repr
    {
      ChildKeys();
      DictKeys(children, childOrder);
      var k := keys[0];
      Child(k);
      var i :| 0 <= i < |childOrder| && childOrder[i] == k;
      if |keys| == 1 {
        assert ChildList(childOrder)[i] == x;
      } else {
        children[k].ReachedListed(keys[1..], x);
        DescendantsOfAll(childOrder, |childOrder|, i, x);
      }
    }

    /** Something `DescendantsOf(keys, n)` lists comes from one of the children under the first `n` keys. */
    lemma {:induction false} DescendantsOfHas(keys: seq<string>, n: nat, x: Ignore) returns (i: nat)
      requires Valid() && n <= |keys| && forall j :: 0 <= j < |keys| ==> keys[j] in children
      requires x in DescendantsOf(keys, n)
      ensures i < n && children[keys[i]].Valid() && x in children[keys[i]].GetChildren()
      decreases n
    {
      Child(keys[n - 1]);
      if x in children[keys[n - 1]].GetChildren() {
        i := n - 1;
      } else {
        i := DescendantsOfHas(keys, n - 1, x);
      }
    }

    /** What a child under `keys[i]` lists is in `DescendantsOf(keys, n)` when `i < n`. */
    lemma {:induction false} DescendantsOfAll(keys: seq<string>, n: nat, i: nat, x: Ignore)
      requires Valid() && n <= |keys| && forall j :: 0 <= j < |keys| ==> keys[j] in children
      requires i < n && children[keys[i]].Valid() && x in children[keys[i]].GetChildren()
      ensures x in DescendantsOf(keys, n)
      decreases n
    {
      if i < n - 1 {
        DescendantsOfAll(keys, n - 1, i, x);
      }
    }

    /** When this node's path is absolute, `list_paths` yields its own files unchanged, before anything else. */
    lemma ListPathsOwn()
      requires Valid() && IsAbs(path)
      ensures |files| <= |ListPaths()| && ListPaths()[..|files|] == files
    {
      FilesFromAt(path, files, fileNames, fileSizes);
      forall k | 0 <= k < |files| ensures Join(path, files[k]) == files[k] {
        assert files[k][0] == path[0];
      }
      assert JoinAll(path, files) == files;
      ChildKeys();
      assert ListPaths() == JoinAll(path, files) + Flatten(PathLists(childOrder, |childOrder|));
    }

    /** `list_paths` yields every file of every node below, joined to that node's path. */
    lemma {:induction false} ListPathsCover(keys: seq<string>, n: Ignore)
      requires Valid() && Reaches(keys, n)
      ensures n.Valid() && forall i :: 0 <= i < |n.files| ==> Join(n.path, n.files[i]) in ListPaths()
      decreases Repr
    {
      ChildKeys();
      assert ListPaths() == JoinAll(path, files) + Flatten(PathLists(childOrder, |childOrder|));
      if |keys| == 0 {
        forall i | 0 <= i < |files| ensures Join(path, files[i]) in ListPaths() {
          assert ListPaths()[i] == JoinAll(path, files)[i];
        }
      } else {
        var k := keys[0];
        Child(k);
        children[k].ListPathsCover(keys[1..], n);
        DictKeys(children, childOrder);
        var j :| 0 <= j < |childOrder| && childOrder[j] == k;
        PathListsAt(childOrder, |childOrder|, j);
        forall i | 0 <= i < |n.files| ensures Join(n.path, n.files[i]) in ListPaths() {
          FlattenHas(PathLists(childOrder, |childOrder|), j, Join(n.path, n.files[i]));
        }
      }
    }

    /** Everything `list_paths` yields is a file of some node below, joined to that node's path. */
    lemma {:induction false} ListPathsFrom(q: string) returns (keys: seq<string>, n: Ignore, i: nat)
      requires Valid() && q in ListPaths()
      ensures Reaches(keys, n) && n.Valid() && i < |n.files| && q == Join(n.path, n.files[i])
      decreases Repr
    {
      ChildKeys();
      var lists := PathLists(childOrder, |childOrder|);
      assert ListPaths() == JoinAll(path, files) + Flatten(lists);
      if q in JoinAll(path, files) {
        var k :| 0 <= k < |files| && JoinAll(path, files)[k] == q;
        keys, n, i := [], this, k;
      } else {
        var j := FlattenIn(lists, q);
        PathListsAt(childOrder, |childOrder|, j);
        var c := childOrder[j];
        Child(c);
        var rest;
        rest, n, i := children[c].ListPathsFrom(q);
        keys := [c] + rest;
        assert keys[1..] == rest;
      }
    }

    // -------------------------------------------------------- get_for_path

    /** The walk of `get_for_path` from this node along `keys`: the node where it stops, and how many keys it used. */
    ghost function Walk(keys: seq<string>): (Ignore, nat)
      reads this, Repr
      requires Valid()
      decreases Repr
    {
      if |keys| == 0 || keys[0] !in children then (this, 0)
      else
        Child(keys[0]);
        var w := children[keys[0]].Walk(keys[1..]);
        (w.0, w.1 + 1)
    }

    /** Following `keys` through the children leads from this node to `n`. */
    ghost predicate Reaches(keys: seq<string>, n: Ignore)
      reads this, Repr
      requires Valid()
      decreases Repr
    {
      if |keys| == 0 then n == this
      else keys[0] in children && (Child(keys[0]); children[keys[0]].Reaches(keys[1..], n))
    }

    /**
     * `get_for_path` stops at the deepest node the names lead to: the names
     * it used lead from here to that node, and the next name, if any, is not
     * a child of it.
     */
    lemma {:induction false} WalkDeepest(keys: seq<string>)
      requires Valid()
      ensures Walk(keys).1 <= |keys| && Walk(keys).0.Valid()
      ensures Reaches(keys[..Walk(keys).1], Walk(keys).0)
      ensures Walk(keys).1 < |keys| ==> keys[Walk(keys).1] !in Walk(keys).0.children
      decreases Repr
    {
      if |keys| > 0 && keys[0] in children {
        Child(keys[0]);
        var c := children[keys[0]];
        c.WalkDeepest(keys[1..]);
        var i := c.Walk(keys[1..]).1;
        assert Walk(keys) == (c.Walk(keys[1..]).0, i + 1);
        assert keys[..i + 1][1..] == keys[1..][..i];
      }
    }

    // ---------------------------------------------------- the parent chain

    /** This node and its ancestors, nearest first. */
    ghost function Line(): (r: seq<Ignore>)
      requires Chain()
      ensures |r| >= 1 && r[0] == this
      decreases depth
    {
      if parent == null then [this] else [this] + parent.Line()
    }

    /** `is_ignored` finds nothing exactly when neither this node nor any ancestor has a matching pattern. */
    lemma {:induction false} IgnoredByChain(p: string, isDir: Option<bool>, fs: Fs, env: Env)
      requires Chain() && p != ""
      ensures IgnoredBy(p, isDir, fs, env) == None <==>
                LocalMatch(path, ignoreOrder, ignores, p, isDir, fs, env) == None && QuietPast(Line(), p, fs, env)
      decreases depth
    {
      if parent != null {
        parent.IgnoredByChain(p, None, fs, env);
        var up := parent.Line();
        assert Line() == [this] + up && Line()[1..] == up;
      }
    }
  }

  /** The lists one after another. */
  function Flatten<T>(xss: seq<seq<T>>): seq<T>
    decreases |xss|
  {
    if |xss| == 0 then [] else Flatten(xss[..|xss| - 1]) + xss[|xss| - 1]
  }

  /** What is in one of the lists is in their concatenation. */
  lemma {:induction false} FlattenHas<T>(xss: seq<seq<T>>, i: nat, x: T)
    requires i < |xss| && x in xss[i]
    ensures x in Flatten(xss)
    decreases |xss|
  {
    var n := |xss| - 1;
    if i < n {
      assert xss[..n][i] == xss[i];
      FlattenHas(xss[..n], i, x);
    }
  }

  /** What is in the concatenation is in one of the lists. */
  lemma {:induction false} FlattenIn<T>(xss: seq<seq<T>>, x: T) returns (i: nat)
    requires x in Flatten(xss)
    ensures i < |xss| && x in xss[i]
    decreases |xss|
  {
    var n := |xss| - 1;
    if x in xss[n] {
      i := n;
    } else {
      i := FlattenIn(xss[..n], x);
      assert xss[..n][i] == xss[i];
    }
  }

  /** No node of `line` past its first has a pattern matching `p`. */
  ghost predicate QuietPast(line: seq<Ignore>, p: string, fs: Fs, env: Env)
    reads line
    requires p != ""
    decreases |line|
  {
    |line| <= 1 || (Quiet(line[1], p, fs, env) && QuietPast(line[1..], p, fs, env))
  }

  /** No pattern of the node `n` matches `p` (with nothing known about `p` being a directory). */
  ghost predicate Quiet(n: Ignore, p: string, fs: Fs, env: Env)
    reads n
    requires p != ""
  {
    LocalMatch(n.path, n.ignoreOrder, n.ignores, p, None, fs, env) == None
  }

  /** `os.path.join(dir, f)` for each `f`. */
  function JoinAll(dir: string, fs: seq<string>): (r: seq<string>)
    ensures |r| == |fs| && forall i :: 0 <= i < |fs| ==> r[i] == Join(dir, fs[i])
    decreases |fs|
  {
    if |fs| == 0 then [] else JoinAll(dir, fs[..|fs| - 1]) + [Join(dir, fs[|fs| - 1])]
  }

  /** `os.path.isdir`. */
  predicate IsDirAt(fs: Fs, p: string)
  {
    p in fs && fs[p].Dir?
  }

  /**
   * `get_for_path`: build the whole tree at `basePath` (`root`) and follow
   * the components of `to_rel_path(p)` down it, stopping at the first one
   * that is not a child.
   */
  method GetForPath(basePath: string, p: string, fs: Fs, env: Env, fuel: nat) returns (r: Ignore?, ghost root: Ignore?)
    requires FsOk(fs)
    ensures !env.isShared(p) || !IsDirAt(fs, p) ==> r == null
    ensures env.isShared(p) && IsDirAt(fs, p) ==>
              root != null && fresh(root) && root.Valid() && root.Chain() && root.parent == null
              && root.path == env.unfuckPath(basePath) && root.Initialized(true, true, fs, env)
              && r == root.Walk(SplitOn(env.toRelPath(p), '/')).0
  {
    root := null;
    if !env.isShared(p) {
      return null, root;
    }
    if !IsDirAt(fs, p) {
      return null, root;
    }
    var top := new Ignore(basePath, null, true, fs, env, fuel);
    root := top;
    var split := SplitOn(env.toRelPath(p), '/');
    var ig := top;
    var i := 0;
    while i < |split|
      invariant 0 <= i <= |split|
      invariant ig.Valid()
      invariant top.Walk(split).0 == ig.Walk(split[i..]).0
    {
      if split[i] !in ig.children {
        break;
      }
      assert split[i..][1..] == split[i + 1..];
      ig := ig.children[split[i]];
      i := i + 1;
    }
    r := ig;
  }

  // ------------------------------------------------- module-level is_ignored

  /** What a new root node at `dir`, built with `recurse` off, says about `p`. */
  function FreshNodeMatch(dir: string, p: string, fs: Fs, env: Env): Option<string>
    requires p != ""
  {
    var nodePath := env.unfuckPath(dir);
    LocalMatch(nodePath, InitKeys(nodePath, true, fs), InitMap(nodePath, true, fs), p, None, fs, env)
  }

  /** What the module-level `is_ignored` does at one directory: answer, raise, or go on to another directory. */
  datatype Step = Answer(ignored: bool) | Raises | Up(next: string)

  /**
   * One call of the module-level `is_ignored` at `h`, with `a` the path
   * asked about: `True` for an unshared directory, `False` where
   * `to_rel_path` gives `.`, `True` when a new node at the head of `h`
   * ignores `a`, and otherwise on to that head. `relpath` of an empty
   * path raises.
   */
  function StepAt(h: string, a: string, fs: Fs, env: Env): Step
  {
    if !env.isShared(h) then Answer(true)
    else if env.toRelPath(h) == "." then Answer(false)
    else if a == "" then Raises
    else
      var base := Split(h).0;
      if FreshNodeMatch(base, a, fs, env).Some? then Answer(true) else Up(base)
  }

  /**
   * The module-level `is_ignored(current_path, abs_path)`. `None` stands
   * for the call raising: `relpath` of an empty path raises `ValueError`,
   * and at a path made only of slashes, whose head is itself, the
   * recursion never ends.
   */
  function PathIgnored(current: string, absPath: Option<string>, fs: Fs, env: Env): Option<bool>
    decreases |current|
  {
    var a := if absPath.None? || absPath.value == "" then current else absPath.value;
    match StepAt(current, a, fs, env)
      case Answer(b) => Some(b)
      case Raises => None
      case Up(base) => if |base| < |current| then PathIgnored(base, Some(a), fs, env) else None
  }

  /** `Ignore(base, recurse=False).is_ignored(a)`: a new node at `base` without subdirectories, asked about `a`. */
  method FreshNodeIgnored(base: string, a: string, fs: Fs, env: Env) returns (m: Option<string>)
    requires FsOk(fs) && a != ""
    ensures m == FreshNodeMatch(base, a, fs, env)
  {
    var ig := new Ignore(base, null, false, fs, env, 0);
    InitBuiltins(ig.path, true, fs);
    assert ig.ignores == InitMap(ig.path, true, fs);
    m := ig.IsIgnored(a, None, fs, env);
  }

  /** The module-level `is_ignored`, building a node per directory on the way up as the source does. */
  method IsPathIgnored(current: string, absPath: Option<string>, fs: Fs, env: Env) returns (r: Option<bool>)
    requires FsOk(fs)
    ensures r == PathIgnored(current, absPath, fs, env)
    decreases |current|
  {
    var a := if absPath.None? || absPath.value == "" then current else absPath.value;
    if !env.isShared(current) {
      return Some(true);
    }
    if env.toRelPath(current) == "." {
      return Some(false);
    }
    var (base, _) := Split(current);
    if a == "" {
      return None;
    }
    var m := FreshNodeIgnored(base, a, fs, env);
    if m.Some? {
      return Some(true);
    }
    if |base| >= |current| {
      return None;
    }
    r := IsPathIgnored(base, Some(a), fs, env);
  }

  /** Any climb up a chain of directories, one `step` at a time; a step that does not shorten the path never ends. */
  function Climb(h: string, step: string -> Step): Option<bool>
    decreases |h|
  {
    match step(h)
      case Answer(b) => Some(b)
      case Raises => None
      case Up(next) => if |next| < |h| then Climb(next, step) else None
  }

  /** The directory a climb from `h` is at after `i` steps (it stays put once it stops). */
  function Visit(h: string, step: string -> Step, i: nat): string
    decreases i
  {
    if i == 0 then h
    else
      var v := Visit(h, step, i - 1);
      if step(v).Up? then step(v).next else v
  }

  /** At `h` the climb goes on, to a shorter path. */
  predicate Moves(h: string, step: string -> Step)
  {
    step(h).Up? && |step(h).next| < |h|
  }

  lemma {:induction false} VisitShift(h: string, step: string -> Step, i: nat)
    requires step(h).Up?
    ensures Visit(h, step, i + 1) == Visit(step(h).next, step, i)
    decreases i
  {
    if i > 0 {
      VisitShift(h, step, i - 1);
    }
  }

  /** Every one of the first `n` steps of a climb from `h` moves to a shorter path. */
  ghost predicate MovesFor(h: string, step: string -> Step, n: nat)
  {
    forall i :: 0 <= i < n ==> Moves(Visit(h, step, i), step)
  }

  /** A climb that answers `b` gets there by moving up `n` times to a directory that answers `b`. */
  lemma {:induction false} ClimbAnswered(h: string, step: string -> Step, b: bool) returns (n: nat)
    requires Climb(h, step) == Some(b)
    ensures MovesFor(h, step, n) && step(Visit(h, step, n)) == Answer(b)
    decreases |h|
  {
    if step(h).Answer? {
      n := 0;
    } else {
      var next := step(h).next;
      var m := ClimbAnswered(next, step, b);
      VisitShift(h, step, m);
      forall i | 0 <= i < m + 1 ensures Moves(Visit(h, step, i), step) {
        if i > 0 {
          VisitShift(h, step, i - 1);
        }
      }
      n := m + 1;
    }
  }

  /** Moving up `n` times to a directory that answers `b` makes the climb answer `b`. */
  lemma {:induction false} ClimbReaches(h: string, step: string -> Step, b: bool, n: nat)
    requires MovesFor(h, step, n) && step(Visit(h, step, n)) == Answer(b)
    ensures Climb(h, step) == Some(b)
    decreases n
  {
    if n > 0 {
      assert Moves(Visit(h, step, 0), step);
      var next := step(h).next;
      forall i | 0 <= i < n - 1 ensures Moves(Visit(next, step, i), step) {
        VisitShift(h, step, i);
        assert Moves(Visit(h, step, i + 1), step);
      }
      VisitShift(h, step, n - 1);
      ClimbReaches(next, step, b, n - 1);
    }
  }

  /**
   * A climb answers `b` exactly when, after some number of steps that each
   * move to a shorter path, it reaches a directory whose step answers `b`.
   */
  lemma ClimbAnswer(h: string, step: string -> Step, b: bool)
    ensures Climb(h, step) == Some(b) <==>
              exists n: nat :: MovesFor(h, step, n) && step(Visit(h, step, n)) == Answer(b)
  {
    if Climb(h, step) == Some(b) {
      var n := ClimbAnswered(h, step, b);
    }
    if exists n: nat :: MovesFor(h, step, n) && step(Visit(h, step, n)) == Answer(b) {
      var n: nat :| MovesFor(h, step, n) && step(Visit(h, step, n)) == Answer(b);
      ClimbReaches(h, step, b, n);
    }
  }

  /** The module-level `is_ignored` is the climb whose step is `StepAt`. */
  lemma {:induction false} PathIgnoredClimb(c: string, a: string, fs: Fs, env: Env)
    requires a != ""
    ensures PathIgnored(c, Some(a), fs, env) == Climb(c, h => StepAt(h, a, fs, env))
    decreases |c|
  {
    var st := StepAt(c, a, fs, env);
    if st.Up? && |st.next| < |c| {
      PathIgnoredClimb(st.next, a, fs, env);
    }
  }

  // ----------------------------------------------------------- properties

  /** The patterns of consecutive runs of lines are those of each run, in order. */
  lemma {:induction false} PatternsConcat(a: seq<string>, b: seq<string>)
    ensures Patterns(a + b) == Patterns(a) + Patterns(b)
    decreases |b|
  {
    if |b| > 0 {
      var n := |b| - 1;
      assert a + b == (a + b[..n]) + [b[n]];
      assert b == b[..n] + [b[n]];
      PatternsSnoc(a + b[..n], b[n]);
      PatternsSnoc(b[..n], b[n]);
      PatternsConcat(a, b[..n]);
    } else {
      assert a + b == a;
    }
  }

  lemma PatternsSnoc(a: seq<string>, line: string)
    ensures Patterns(a + [line]) == Patterns(a) + Patterns([line])
  {
    assert (a + [line])[..|a|] == a;
    assert [line][..0] == [];
  }

  /** Line `i` adds its stripped text to the patterns of the lines before it when that is neither blank nor a comment. */
  lemma PatternsAt(lines: seq<string>, i: nat)
    requires i < |lines|
    ensures Patterns(lines[..i + 1]) == Patterns(lines[..i]) + if Keeps(lines[i]) then [Strip(lines[i])] else []
  {
    assert lines[..i + 1][..i] == lines[..i];
  }

  /** One line yields its stripped text when that is neither blank nor a comment, and nothing otherwise. */
  lemma PatternsOne(line: string)
    ensures Patterns([line]) == if Keeps(line) then [Strip(line)] else []
  {
    assert [line][..0] == [];
  }

  /** The lines that are not `#` comments, in order. */
  function Uncommented(lines: seq<string>): seq<string>
    decreases |lines|
  {
    if |lines| == 0 then []
    else (if lines[0] != "" && lines[0][0] == '#' then [] else [lines[0]]) + Uncommented(lines[1..])
  }

  /** Lines none of which is a comment are all kept. */
  lemma {:induction false} UncommentedAll(lines: seq<string>)
    requires forall i :: 0 <= i < |lines| ==> lines[i] != "" && lines[i][0] != '#'
    ensures Uncommented(lines) == lines
    decreases |lines|
  {
    if |lines| > 0 {
      UncommentedAll(lines[1..]);
    }
  }

  /** A non-empty text of visible ASCII characters. */
  predicate Visible(s: string)
  {
    s != "" && forall k :: 0 <= k < |s| ==> '!' <= s[k] <= '~'
  }

  /** A line as `strip` leaves it: not empty, without a newline and without whitespace at either end. */
  predicate Bare(s: string)
  {
    s != "" && '\n' !in s && Strip(s) == s
  }

  /** Bare lines, joined with newlines, load as those that are not comments. */
  lemma ParseJoined(xs: seq<string>)
    requires |xs| > 0 && forall i :: 0 <= i < |xs| ==> Bare(xs[i])
    ensures ParseIgnoreFile(JoinWith(xs, '\n')) == Uncommented(xs)
  {
    SplitJoin(xs, '\n');
    PatternsBare(xs);
  }

  lemma {:induction false} PatternsBare(lines: seq<string>)
    requires forall i :: 0 <= i < |lines| ==> Bare(lines[i])
    ensures Patterns(lines) == Uncommented(lines)
    decreases |lines|
  {
    if |lines| > 0 {
      var rest := lines[1..];
      forall i | 0 <= i < |rest| ensures Bare(rest[i]) {
        assert rest[i] == lines[i + 1];
      }
      PatternsBare(rest);
      PatternsCons(lines[0], rest);
      assert [lines[0]] + rest == lines;
    }
  }

  /** One bare line in front keeps the loaded patterns equal to the uncommented lines. */
  lemma PatternsCons(l: string, rest: seq<string>)
    requires Bare(l) && Patterns(rest) == Uncommented(rest)
    ensures Patterns([l] + rest) == Uncommented([l] + rest)
  {
    PatternsOne(l);
    PatternsConcat([l], rest);
    assert ([l] + rest)[1..] == rest;
  }

  /** Lines of visible characters are bare. */
  lemma VisibleAllBare(xs: seq<string>)
    requires forall i :: 0 <= i < |xs| ==> Visible(xs[i])
    ensures forall i :: 0 <= i < |xs| ==> Bare(xs[i])
  {
    forall i | 0 <= i < |xs| ensures Bare(xs[i]) {
      StripUnchanged(xs[i]);
    }
  }

  /** The text `create_flooignore` writes loads as every default pattern but `#*`, which reads as a comment. */
  lemma DefaultIgnoresLoad()
    ensures ParseIgnoreFile(JoinWith(DEFAULT_IGNORES, '\n')) == DEFAULT_IGNORES[1..]
  {
    var d := DEFAULT_IGNORES;
    assert Visible(d[0]) && Visible(d[1]) && Visible(d[2]) && Visible(d[3]);
    assert Visible(d[4]) && Visible(d[5]) && Visible(d[6]) && Visible(d[7]);
    assert d[0][0] == '#' && d[1][0] == '*' && d[2][0] == '*' && d[3][0] == '*';
    assert d[4][0] == 'e' && d[5][0] == 'n' && d[6][0] == 't' && d[7][0] == 'v';
    ParseVisibleComment(d);
  }

  /** The same for lines of visible characters. */
  lemma ParseVisibleComment(xs: seq<string>)
    requires |xs| > 0 && forall i :: 0 <= i < |xs| ==> Visible(xs[i])
    requires xs[0] != "" && xs[0][0] == '#'
    requires forall i :: 1 <= i < |xs| ==> xs[i] != "" && xs[i][0] != '#'
    ensures ParseIgnoreFile(JoinWith(xs, '\n')) == xs[1..]
  {
    VisibleAllBare(xs);
    ParseJoinedComment(xs);
  }

  /** Bare lines of which only the first is a comment load as the others. */
  lemma ParseJoinedComment(xs: seq<string>)
    requires |xs| > 0 && forall i :: 0 <= i < |xs| ==> Bare(xs[i])
    requires xs[0] != "" && xs[0][0] == '#'
    requires forall i :: 1 <= i < |xs| ==> xs[i] != "" && xs[i][0] != '#'
    ensures ParseIgnoreFile(JoinWith(xs, '\n')) == xs[1..]
  {
    ParseJoined(xs);
    var rest := xs[1..];
    forall i | 0 <= i < |rest| ensures rest[i] != "" && rest[i][0] != '#' {
      assert rest[i] == xs[i + 1];
    }
    UncommentedAll(rest);
    assert Uncommented(xs) == [] + Uncommented(rest);
  }

  /** `int(s)` of a string of decimal digits. */
  function DigitsValue(s: string): nat
    decreases |s|
  {
    if |s| == 0 then 0
    else
      var c := s[|s| - 1];
      DigitsValue(s[..|s| - 1]) * 10 + (if '0' <= c <= '9' then (c as int - '0' as int) else 0)
  }

  /** `str(n)` reads back as `n`. */
  lemma {:induction false} DecimalRoundTrip(n: nat)
    ensures DigitsValue(Decimal(n)) == n
    decreases n
  {
    if n >= 10 {
      DecimalRoundTrip(n / 10);
      var s := Decimal(n / 10) + [DigitChar(n % 10)];
      assert s[..|s| - 1] == Decimal(n / 10);
    }
  }

  /** A path listed under `TOO_BIG` is reported with the limit written out, whatever the pattern. */
  lemma TooBigMessage(nodePath: string, path: string, pattern: string)
    ensures IgnoredMessage(nodePath, path, pattern, TOO_BIG)
            == path + " ignored because it is too big (more than 5242880 bytes)"
  {
    assert Decimal(5) == "5";
    DecimalStep(5, 2);
    DecimalStep(52, 4);
    DecimalStep(524, 2);
    DecimalStep(5242, 8);
    DecimalStep(52428, 8);
    DecimalStep(524288, 0);
    assert Decimal(5242880) == "5242880";
  }

  /** Appending a digit to a positive number appends its character. */
  lemma DecimalStep(n: nat, d: nat)
    requires 0 < n && d < 10
    ensures Decimal(10 * n + d) == Decimal(n) + [DigitChar(d)]
  {
    assert (10 * n + d) / 10 == n && (10 * n + d) % 10 == d;
  }

  /** No pattern of an ignore file hits exactly when the search over that file finds nothing. */
  lemma {:induction false} FirstHitInNone(pats: seq<string>, key: string, nodePath: string, path: string,
                                          rel: string, dir: Option<bool>, env: Env)
    ensures FirstHitIn(pats, key, nodePath, path, rel, dir, env) == None <==>
              forall j :: 0 <= j < |pats| ==> PatternHit(nodePath, path, rel, pats[j], key, dir, env) == None
    decreases |pats|
  {
    if |pats| > 0 {
      FirstHitInNone(pats[1..], key, nodePath, path, rel, dir, env);
      assert forall j :: 1 <= j < |pats| ==> pats[1..][j - 1] == pats[j];
    }
  }

  /** A hit is the message of the first pattern of the file that hits. */
  lemma {:induction false} FirstHitInFirst(pats: seq<string>, key: string, nodePath: string, path: string,
                                           rel: string, dir: Option<bool>, env: Env) returns (j: nat)
    requires FirstHitIn(pats, key, nodePath, path, rel, dir, env).Some?
    ensures j < |pats| && FirstHitIn(pats, key, nodePath, path, rel, dir, env)
                          == PatternHit(nodePath, path, rel, pats[j], key, dir, env)
    ensures forall i :: 0 <= i < j ==> PatternHit(nodePath, path, rel, pats[i], key, dir, env) == None
    decreases |pats|
  {
    if PatternHit(nodePath, path, rel, pats[0], key, dir, env).Some? {
      j := 0;
    } else {
      var j' := FirstHitInFirst(pats[1..], key, nodePath, path, rel, dir, env);
      j := j' + 1;
      forall i | 0 <= i < j ensures PatternHit(nodePath, path, rel, pats[i], key, dir, env) == None {
        if i > 0 {
          assert pats[i] == pats[1..][i - 1];
        }
      }
    }
  }

  /** No pattern of any of the files `keys` hits exactly when the search over them finds nothing. */
  lemma {:induction false} FirstHitNone(keys: seq<string>, ignores: map<string, seq<string>>, nodePath: string,
                                        path: string, rel: string, dir: Option<bool>, env: Env)
    ensures FirstHit(keys, ignores, nodePath, path, rel, dir, env) == None <==>
              forall i, j :: 0 <= i < |keys| && keys[i] in ignores && 0 <= j < |ignores[keys[i]]| ==>
                PatternHit(nodePath, path, rel, ignores[keys[i]][j], keys[i], dir, env) == None
    decreases |keys|
  {
    if |keys| > 0 {
      FirstHitNone(keys[1..], ignores, nodePath, path, rel, dir, env);
      if keys[0] in ignores {
        FirstHitInNone(ignores[keys[0]], keys[0], nodePath, path, rel, dir, env);
      }
      assert forall i :: 1 <= i < |keys| ==> keys[1..][i - 1] == keys[i];
    }
  }

  /** A hit is the first hit within the first ignore file, in dictionary order, that has one. */
  lemma {:induction false} FirstHitFirst(keys: seq<string>, ignores: map<string, seq<string>>, nodePath: string,
                                         path: string, rel: string, dir: Option<bool>, env: Env) returns (i: nat)
    requires FirstHit(keys, ignores, nodePath, path, rel, dir, env).Some?
    ensures i < |keys| && keys[i] in ignores
    ensures FirstHit(keys, ignores, nodePath, path, rel, dir, env)
            == FirstHitIn(ignores[keys[i]], keys[i], nodePath, path, rel, dir, env)
    ensures forall k :: 0 <= k < i && keys[k] in ignores ==>
              FirstHitIn(ignores[keys[k]], keys[k], nodePath, path, rel, dir, env) == None
    decreases |keys|
  {
    if keys[0] in ignores && FirstHitIn(ignores[keys[0]], keys[0], nodePath, path, rel, dir, env).Some? {
      i := 0;
    } else {
      var i' := FirstHitFirst(keys[1..], ignores, nodePath, path, rel, dir, env);
      i := i' + 1;
      forall k | 0 <= k < i && keys[k] in ignores
        ensures FirstHitIn(ignores[keys[k]], keys[k], nodePath, path, rel, dir, env) == None
      {
        if k > 0 {
          assert keys[k] == keys[1..][k - 1];
        }
      }
    }
  }

  /**
   * A name on a node's `TOO_BIG` list makes every path below the node
   * whose last name is that name "too big", whichever directory it is in:
   * the list is searched first and its names are matched as patterns.
   */
  lemma TooBigShadows(nodePath: string, keys: seq<string>, ignores: map<string, seq<string>>, q: string,
                      path: string, isDir: Option<bool>, fs: Fs, env: Env)
    requires path != "" && |keys| > 0 && keys[0] == TOO_BIG && TOO_BIG in ignores
    requires q in ignores[TOO_BIG] && IsName(q)
    requires Split(RelPath(path, nodePath, env.cwd)).1 == q
    ensures LocalMatch(nodePath, keys, ignores, path, isDir, fs, env)
            == Some(path + " ignored because it is too big (more than 5242880 bytes)")
  {
    var rel := RelPath(path, nodePath, env.cwd);
    var dir := DirOf(path, isDir, fs);
    var pats := ignores[TOO_BIG];
    var j :| 0 <= j < |pats| && pats[j] == q;
    Glob.MatchSelf(q);
    assert q[0] != '/' && q[|q| - 1] != '/' by {
      assert q[0] in q && q[|q| - 1] in q;
    }
    assert PatternHit(nodePath, path, rel, pats[j], TOO_BIG, dir, env).Some?;
    FirstHitInNone(pats, TOO_BIG, nodePath, path, rel, dir, env);
    var j' := FirstHitInFirst(pats, TOO_BIG, nodePath, path, rel, dir, env);
    TooBigHit(nodePath, path, rel, pats[j'], dir, env);
  }

  /** Whatever pattern of the `TOO_BIG` list hits, the message is the too-big one. */
  lemma TooBigHit(nodePath: string, path: string, rel: string, pattern: string, dir: Option<bool>, env: Env)
    requires PatternHit(nodePath, path, rel, pattern, TOO_BIG, dir, env).Some?
    ensures PatternHit(nodePath, path, rel, pattern, TOO_BIG, dir, env).value
            == path + " ignored because it is too big (more than 5242880 bytes)"
  {
    var pat := if |pattern| > 0 && pattern[|pattern| - 1] == '/' && dir == Some(true)
               then pattern[..|pattern| - 1] else pattern;
    TooBigMessage(nodePath, path, pattern);
    TooBigMessage(nodePath, path, pat);
  }

  /**
   * The anchored branch compares the head of the relative path with the
   * node's absolute path. For an entry of the node's own directory the
   * head is empty, so `/name` patterns hit it only when `unfuck_path("")`
   * is the node's path.
   */
  lemma AnchoredEntry(nodePath: string, q: string, pattern: string, key: string, dir: Option<bool>, env: Env)
    requires IsAbs(nodePath) && Normal(nodePath)
    requires IsName(q) && q != "." && q != ".."
    requires |pattern| > 0 && pattern[0] == '/'
    ensures var p := Join(nodePath, q);
            p != "" &&
            (PatternHit(nodePath, p, RelPath(p, nodePath, env.cwd), pattern, key, dir, env).Some?
             <==> env.unfuckPath("") == nodePath && Glob.Match(q, pattern[1..]))
  {
    ChildRelPath(nodePath, q, env.cwd);
  }

  /** A pattern ending in `/` never hits a path that is not a directory. */
  lemma DirPatternSkipsFiles(nodePath: string, path: string, pattern: string, key: string, env: Env)
    requires path != "" && |pattern| > 0 && pattern[0] != '/' && pattern[|pattern| - 1] == '/'
    ensures PatternHit(nodePath, path, RelPath(path, nodePath, env.cwd), pattern, key, Some(false), env) == None
  {
    var rel := RelPath(path, nodePath, env.cwd);
    RelPathShape(path, nodePath, env.cwd);
    SplitSpec(rel);
    var name := Split(rel).1;
    if Glob.Match(name, pattern) {
      Glob.MatchLast(name, pattern);
    }
    if Glob.Match(rel, pattern) {
      Glob.MatchLast(rel, pattern);
    }
  }

  /** A pattern of plain characters: no wildcard and no slash. */
  predicate Plain(lit: string)
  {
    forall k :: 0 <= k < |lit| ==> !Glob.Wild(lit[k]) && lit[k] != '/'
  }

  /** A pattern such as `*.pyc` hits exactly the paths whose last name ends in its suffix. */
  lemma SuffixPatternHit(nodePath: string, path: string, rel: string, lit: string, key: string,
                         dir: Option<bool>, env: Env)
    requires |lit| > 0 && Plain(lit)
    ensures var name := Split(rel).1;
            PatternHit(nodePath, path, rel, "*" + lit, key, dir, env).Some?
            <==> |lit| <= |name| && name[|name| - |lit|..] == lit
  {
    var pattern := "*" + lit;
    assert pattern[0] == '*' && pattern[|pattern| - 1] == lit[|lit| - 1] != '/';
    Glob.MatchStarSuffix(Split(rel).1, lit);
    Glob.MatchStarSuffix(rel, lit);
    TailSuffix(rel, lit);
  }

  /** A plain pattern such as `tmp` hits exactly a path whose last name, or whole relative path, it spells. */
  lemma PlainPatternHit(nodePath: string, path: string, rel: string, lit: string, key: string,
                        dir: Option<bool>, env: Env)
    requires |lit| > 0 && Plain(lit)
    ensures PatternHit(nodePath, path, rel, lit, key, dir, env).Some? <==> Split(rel).1 == lit || rel == lit
  {
    assert lit[0] != '/' && lit[|lit| - 1] != '/';
    Glob.MatchLiteral(Split(rel).1, lit);
    Glob.MatchLiteral(rel, lit);
  }

  /**
   * A pattern such as `node_modules/` loses its slash for a directory and
   * then hits exactly a directory whose last name, or whole relative path,
   * it spells.
   */
  lemma DirPatternHit(nodePath: string, path: string, rel: string, lit: string, key: string, env: Env)
    requires |lit| > 0 && Plain(lit)
    ensures PatternHit(nodePath, path, rel, lit + "/", key, Some(true), env)
            == if Split(rel).1 == lit || rel == lit
               then Some(IgnoredMessage(nodePath, path, lit, key)) else None
  {
    var pattern := lit + "/";
    assert pattern[0] == lit[0] != '/' && pattern[|pattern| - 1] == '/';
    assert pattern[..|pattern| - 1] == lit;
    Glob.MatchLiteral(Split(rel).1, lit);
    Glob.MatchLiteral(rel, lit);
  }

  /** Loading names other than `k` leaves the list under `k` as it was. */
  lemma {:induction false} LoadedMapKeeps(dir: string, fs: Fs, names: seq<string>, base: map<string, seq<string>>, k: string)
    requires forall j :: 0 <= j < |names| ==> names[j] != k
    ensures k in LoadedMap(dir, fs, names, base) <==> k in base
    ensures k in base ==> LoadedMap(dir, fs, names, base)[k] == base[k]
    decreases |names|
  {
    if |names| > 0 {
      LoadedMapKeeps(dir, fs, names[..|names| - 1], base, k);
    }
  }

  /**
   * A new node starts with an empty `TOO_BIG` list, first in dictionary
   * order, and holds `DEFAULT` (the blacklist) exactly when it has no
   * parent; its other lists are the ignore files it could read.
   */
  lemma InitBuiltins(dir: string, isRoot: bool, fs: Fs)
    ensures var keys := InitKeys(dir, isRoot, fs); var m := InitMap(dir, isRoot, fs);
            keys[0] == TOO_BIG && TOO_BIG in m && m[TOO_BIG] == []
            && (DEFAULT in m <==> isRoot) && (isRoot ==> m[DEFAULT] == BLACKLIST)
            && forall k :: k in m <==> k in keys
  {
    IgnoreFileNames();
    var base := BaseMap(isRoot);
    LoadedMapKeeps(dir, fs, IGNORE_FILES, base, TOO_BIG);
    LoadedMapKeeps(dir, fs, IGNORE_FILES, base, DEFAULT);
    LoadedKeysFrom(dir, fs, IGNORE_FILES, base);
  }

  /** Where none of the ignore files can be read, nothing is loaded. */
  lemma {:induction false} NothingLoaded(dir: string, fs: Fs, names: seq<string>, base: map<string, seq<string>>)
    requires forall k :: 0 <= k < |names| ==> ReadText(fs, Join(dir, names[k])).None?
    ensures LoadedKeys(dir, fs, names) == [] && LoadedMap(dir, fs, names, base) == base
    decreases |names|
  {
    if |names| > 0 {
      NothingLoaded(dir, fs, names[..|names| - 1], base);
    }
  }

  /** A directory holding a single entry `p`, which is not an ignore file, gives a root only the built-in lists. */
  lemma OneEntryLists(d: string, p: string, e: Entry, fs: Fs)
    requires IsName(p) && p !in IGNORE_FILES && fs == map[d := Dir([p]), Join(d, p) := e]
    ensures InitKeys(d, true, fs) == [TOO_BIG, DEFAULT] && InitMap(d, true, fs) == BaseMap(true)
  {
    forall k | 0 <= k < |IGNORE_FILES|
      ensures ReadText(fs, Join(d, IGNORE_FILES[k])).None?
    {
      var f := IGNORE_FILES[k];
      assert IsName(f);
      if Join(d, f) == Join(d, p) {
        JoinNames(d, f, p);
      }
      assert |Join(d, f)| > |d|;
    }
    NothingLoaded(d, fs, IGNORE_FILES, BaseMap(true));
  }

  /** Joining two different names to the same directory gives two different paths. */
  lemma JoinNames(d: string, x: string, y: string)
    requires IsName(x) && IsName(y) && Join(d, x) == Join(d, y)
    ensures x == y
  {
    var pre := if |d| == 0 || d[|d| - 1] == '/' then d else d + "/";
    assert Join(d, x) == pre + x && Join(d, y) == pre + y;
    assert x == (pre + x)[|pre|..] && y == (pre + y)[|pre|..];
  }

  /** `/d` is a normal absolute path of one name. */
  lemma OneFileDir()
    ensures IsAbs("/d") && Normal("/d")
  {
    assert "/d"[1..] == "d" && "d"[1..] == "" && "d"[0] != '/';
    assert SplitOn("", '/') == [""];
    assert [""][1..] == [] && ['d'] + "" == "d";
    assert SplitOn("d", '/') == [['d'] + SplitOn("", '/')[0]] + SplitOn("", '/')[1..];
    assert SplitOn("d", '/') == ["d"];
    assert SplitOn("/d", '/') == ["", "d"];
    assert ["", "d"][1..] == ["d"] && ["d"][1..] == [];
    assert Parts("/d") == ["d"];
  }

  /** The blacklisted names are plain names without wildcards. */
  lemma BlacklistPlain()
    ensures forall j :: 0 <= j < |BLACKLIST| ==> |BLACKLIST[j]| > 0 && Plain(BLACKLIST[j])
  {
    assert Plain(BLACKLIST[0]);
    assert Plain(BLACKLIST[1]);
    assert Plain(BLACKLIST[2]);
    assert Plain(BLACKLIST[3]);
  }

  /** No pattern of a root's built-in lists hits a path whose relative path and last name are not blacklisted. */
  lemma BlacklistQuiet(d: string, q: string, rel: string, dir: Option<bool>, env: Env)
    requires Split(rel).1 !in BLACKLIST && rel !in BLACKLIST
    ensures FirstHit([TOO_BIG, DEFAULT], BaseMap(true), d, q, rel, dir, env) == None
  {
    BlacklistPlain();
    forall j | 0 <= j < |BLACKLIST|
      ensures PatternHit(d, q, rel, BLACKLIST[j], DEFAULT, dir, env) == None
    {
      PlainPatternHit(d, q, rel, BLACKLIST[j], DEFAULT, dir, env);
    }
    FirstHitInNone(BLACKLIST, DEFAULT, d, q, rel, dir, env);
    assert FirstHit([DEFAULT], BaseMap(true), d, q, rel, dir, env) == None;
    assert [TOO_BIG, DEFAULT][1..] == [DEFAULT];
  }

  /** No pattern of a root's built-in lists matches an entry whose name is not blacklisted. */
  lemma BuiltinsQuiet(d: string, p: string, fs: Fs, env: Env)
    requires IsAbs(d) && Normal(d) && IsName(p) && p != "." && p != ".." && p !in BLACKLIST
    ensures Join(d, p) != ""
    ensures LocalMatch(d, [TOO_BIG, DEFAULT], BaseMap(true), Join(d, p), None, fs, env).None?
  {
    ChildRelPath(d, p, env.cwd);
    var q := Join(d, p);
    var rel, dir := RelPath(q, d, env.cwd), DirOf(q, None, fs);
    BlacklistQuiet(d, q, rel, dir, env);
  }

  /**
   * Building a root over a directory that holds a single regular file,
   * neither blacklisted nor an ignore file and at most 5 MiB, accepts that
   * file with its size and records nothing else.
   */
  lemma BuildOneFile(ig: Ignore, d: string, p: string, sz: nat, text: string, fs: Fs, env: Env)
    requires IsAbs(d) && Normal(d) && IsName(p) && p != "." && p != ".."
    requires p !in BLACKLIST && p !in IGNORE_FILES && sz <= MAX_FILE_SIZE
    requires fs == map[d := Dir([p]), Join(d, p) := File(sz, text)]
    requires ig.Chain() && ig.parent == null && ig.path == d
    requires FsOk(fs) && ig.Initialized(true, true, fs, env)
    ensures ig.files == [Join(d, p)] && ig.size == sz && ig.ignores[TOO_BIG] == [] && ig.children == map[]
  {
    var names := [p];
    assert |Join(d, p)| > |d|;
    assert Listing(fs, d) == Some(names);
    OneEntryLists(d, p, File(sz, text), fs);
    assert ig.UpwardAll(names, fs, env) == [None];
    OneFileAdded(d, p, sz, text, fs, env);
    assert NewKeys([], []) == [];
  }

  /** What the loop of `__init__` adds for that single file. */
  lemma OneFileAdded(d: string, p: string, sz: nat, text: string, fs: Fs, env: Env)
    requires IsAbs(d) && Normal(d) && IsName(p) && p != "." && p != ".."
    requires p !in BLACKLIST && sz <= MAX_FILE_SIZE
    requires fs == map[d := Dir([p]), Join(d, p) := File(sz, text)]
    ensures AddedFrom(d, [p], [None], 1, [TOO_BIG, DEFAULT], BaseMap(true), fs, env) == Added([Join(d, p)], sz, [], [])
  {
    var keys, m := [TOO_BIG, DEFAULT], BaseMap(true);
    AddedNext(d, [p], [None], 0, keys, m, fs, env);
    assert m[TOO_BIG := []] == m;
    BuiltinsQuiet(d, p, fs, env);
    assert FateAt(d, p, keys, m, None, fs, env) == Accepted(sz);
  }

  /** For one: a root at `/d`, holding only the three-byte file `a`, has the one file `/d/a` of size 3. */
  lemma BuildExample(ig: Ignore, fs: Fs, env: Env)
    requires fs == map["/d" := Dir(["a"]), "/d/a" := File(3, "x")]
    requires ig.Chain() && ig.parent == null && ig.path == "/d"
    requires FsOk(fs) && ig.Initialized(true, true, fs, env)
    ensures ig.files == ["/d/a"] && ig.size == 3 && ig.ignores[TOO_BIG] == [] && ig.children == map[]
  {
    OneFileDir();
    assert Join("/d", "a") == "/d/a";
    BuildOneFile(ig, "/d", "a", 3, "x", fs, env);
  }
}
