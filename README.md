# Ignore engine and reactor of a collaborative-editing client

This project models two parts of the client of a real-time collaborative
editor in Dafny and proves properties of the model.

**The ignore engine (`ignore.py`)** decides which files of a shared
project directory are uploaded. It builds a tree of `Ignore` nodes, one per
directory:

- Each node lists its directory and loads the `.gitignore`, `.hgignore`,
  `.flignore` and `.flooignore` files found there.
- Each entry of the listing goes through `add_file`:
  - blacklisted names, `.`, `..`, ignored paths and paths `stat` fails on are dropped;
  - directories become child nodes;
  - regular files are accepted;
  - regular files over 5 MiB are recorded under the pseudo ignore file `/TOO_BIG/`.
- A path is ignored when any pattern of the node or of one of its ancestors
  matches it (`is_ignored`).
- Two module-level functions build trees on demand:
  - `is_ignored` climbs from a path towards the root, building a fresh
    node for each directory on the way;
  - `get_for_path` builds the whole tree and walks it down to a directory.

**The reactor (`reactor.py`)** keeps the client's connections and their
factories. Its `tick` ticks every factory, then runs one `select` pass:

- the pass polls the descriptors the connections ask for;
- descriptors in the error set are reconnected and take no further part in the pass;
- then come the writes, then the reads.

## How the model is built

- **Modules.** One module per source concern:
  - `Text` holds `str.split`, `str.join` and `str.strip`;
  - `Paths` holds `os.path.join`, `split`, `relpath` and `normpath`;
  - `Glob` holds `fnmatch`;
  - `Ignores` holds `ignore.py`;
  - `Reactors` holds `reactor.py`.
- **The filesystem** is a map `Fs` from path strings to entries: a
  directory with its listing, a regular file with its size and text, or
  anything else.
- **Helpers from the repository's `utils` module** are fields of `Env`,
  and proofs hold for every choice of them. They are `unfuck_path`,
  `is_shared` and `to_rel_path`; the working directory that `abspath`
  uses is a field too.
- **An `Ignore` node** is a class whose fields are updated in place, as
  in the source. The dictionaries `ignores` and `children` are a `map` plus
  the list of their keys in insertion order (`ignoreOrder`, `childOrder`).
  That list is the iteration order of a Python dictionary.
- **Node methods.**
  - A method for a source operation (`AddFile`, `Load`, `IsIgnored`, …)
    states its whole new state.
  - A method that answers a question is tied to a specification
    function: `IsIgnored` to `IgnoredBy` and `ReadPatterns` to
    `ParseIgnoreFile`.
  - The lemmas prove what those functions mean: which pattern wins, what a
    pattern of each form matches, what `load` keeps, and what
    `get_children` and `list_paths` reach.
- **The reactor** is a class with the two tracked lists (`fds`,
  `handlers`) and a ghost `trace` of every call it makes into connections,
  factories and `select.select`.
  - The behaviour of those objects is a `World` of oracles. Each oracle is
    a function of the trace: which call raises, which connection a factory
    builds, what a connection's `fd_set` asks for, and what the probe
    reports.
  - Each reactor method is proved equal to a pure function of the old
    state and the trace (`Calls`, `Pass`, `Dispatch`, …).
  - Lemmas state what a pass does: which calls it makes, in which order,
    and how it ends.

The source's `_reconnect` and its reconnect after a failed probe are broken
as written (see Findings). The pass is therefore defined for three `Mode`s:

| mode | `_reconnect` as | used by |
|---|---|---|
| `Unbound` | written, without `self` | the finding lemmas |
| `SelfBound` | given `self`, but still calling `list.remove` | the finding lemmas |
| `Corrected` | given `self`, removing the descriptor only where it is present; after a failed probe, reconnecting the connection that holds `readable[0]` | the reactor's methods |

## Reading of the source

- **Unreadable ignore files.** `__init__` of an `Ignore` swallows every
  exception that `load` raises, so an ignore file that cannot be read is
  skipped.
- **Where a `select` pass puts connections and descriptors.**
  - `select.select` returns the subsets of the three lists it is given.
  - `fd_map[fileno]` is looked up with the members of those subsets, so
    the lists hold descriptors.
  - The model therefore takes it that `fd.fd_set` appends `fd.fileno()`.
  - Inside a pass, a connection stands for its descriptor: `_reconnect`'s
    `fd_set.remove(fd)` removes the connection's descriptor.
  - `readable[0].reconnect()` after a failed probe is called on a
    descriptor number, so as written it raises (see Findings). The
    corrected pass reconnects the connection that holds `readable[0]`.
  - The code of `fd_set` is not part of this model.
- **Where the code and the reactor's documented behaviour differ, the model follows the code:**
  - A failing write ends the whole pass. It returns from `select` after
    reconnecting, so no read of that pass happens, including reads of other
    connections.
  - After a failed probe:
    - with exactly one readable descriptor, the corrected pass reconnects
      that connection and returns normally (as written it raises);
    - otherwise the pass raises, including when there is one connection and
      it only wants to write.
- **One `Ignore` quirk is modelled as written.** `add_file` records the
  bare name of a large file under `/TOO_BIG/`. Later `is_ignored` calls on
  the same node therefore match that name like any other unanchored
  pattern (`TooBigShadows`).
- **Anchored patterns depend on `unfuck_path`.** A pattern starting with
  `/` hits a direct entry only when `unfuck_path` of the empty head that
  `split` gives equals the node's path (`AnchoredEntry`). Whether that can
  happen depends on `utils.unfuck_path`, which is outside this model.
- **`list_paths` joins a second time.** It joins the node's path onto
  entries of `files` that already hold it. The result is the stored path
  only when the node's path is absolute (`ListPathsOwn`).

## Model

| member | source | states |
|---|---|---|
| Ignores.Ignore.constructor | ignore.py:45-76 | a new node is a valid tree whose parent chain is finite; its parent is the argument and its path is `unfuck_path` of the argument; its ignore-file keys, in order, are `/TOO_BIG/`, `/DEFAULT/` for a root, then the readable ignore files, each holding its parsed file; every accepted file is a regular file of `fs` of its recorded size; when recursing into a directory that can be listed, `files`, `size`, `/TOO_BIG/` and the children (keys, order, parent and path) are exactly what adding the listing's entries in order gives (`AddedFrom`); otherwise it holds no files, no children and an empty `/TOO_BIG/` |
| Ignores.Ignore.Populate | ignore.py:58-76 | from the bare built-in lists, leaves the node in the state `Initialized` describes: a directory that cannot be listed keeps only the built-in lists and no entries; otherwise the ignore files are loaded and, when recursing, the listing's entries are added |
| Ignores.Ignore.AddListing | ignore.py:74-76 | over a listable directory whose ignore files are loaded, the loop over the listing leaves exactly the state `Initialized` describes for a recursive build |
| Ignores.Ignore.InitializedBy | ignore.py:74-76 | the state the loop leaves, when each entry was judged with the parent chain's verdict on it, is the recursive build's state |
| Ignores.Ignore.SizeInFs | ignore.py:94-105 | `size` is the total of the sizes `fs` records for the accepted files |
| Ignores.NothingLoaded | ignore.py:69-73 | when none of the ignore files can be read, no key is added and the lists stay as they were |
| Ignores.OneEntryLists | ignore.py:50-73 | a root over a directory whose only entry is not an ignore file has only the built-in lists `/TOO_BIG/` and `/DEFAULT/` |
| Ignores.BuiltinsQuiet | ignore.py:50-56 | no pattern of a root's built-in lists matches an entry whose name is not blacklisted |
| Ignores.BlacklistQuiet | ignore.py:140-161 | no blacklist pattern hits a path whose name and relative path are not blacklisted |
| Ignores.OneFileAdded | ignore.py:78-105 | the loop adds a single small, non-blacklisted regular file as one accepted file of its size, and nothing else |
| Ignores.BuildOneFile | ignore.py:58-105 | a recursive root over a directory holding one small regular file, neither blacklisted nor an ignore file, has exactly that file, its size, an empty `/TOO_BIG/` and no children |
| Ignores.BuildExample | ignore.py:58-105 | a root at `/d` holding only the three-byte file `a` has `files == ["/d/a"]`, size 3, no too-big entry and no children |
| Ignores.Ignore.LoadIgnoreFiles | ignore.py:69-73 | each readable ignore file is stored in the order of the list; an unreadable one is skipped (its exception swallowed); files, size and children stay unchanged |
| Ignores.Ignore.LoadNext | ignore.py:70-73 | one step of that loop extends the stored keys and lists by exactly the one file, when it is readable |
| Ignores.LoadedKeysFrom | ignore.py:69-73 | after the loop the keys are the built-in ones plus the files that were read, each one a name from the list |
| Ignores.LoadedMapKeeps | ignore.py:69-73 | a key that is not among the names loaded keeps its list and its presence |
| Ignores.IgnoreFileNames | ignore.py:20 | the ignore-file names are distinct and never collide with `/TOO_BIG/` or `/DEFAULT/` |
| Ignores.InitBuiltins | ignore.py:50-56 | a new node's first list is `/TOO_BIG/` and empty; `/DEFAULT/` is present exactly for a root and holds the blacklist; the key list and the map agree |
| Ignores.Ignore.AddEntries | ignore.py:74-76 | adding the entries of a listing, in order, appends to `files`, `size`, `/TOO_BIG/` and the children exactly what the fold `AddedFrom` of the listing gives, changes no other ignore list and keeps the tree valid and the recorded sizes true to `fs` |
| Ignores.Ignore.Load | ignore.py:107-118 | succeeds exactly when the file can be read; stores its parsed patterns under its name, replacing an earlier list in place or appending a new key; a failure changes nothing; nothing else changes |
| Ignores.Ignore.Store | ignore.py:110-118 | `self.ignores[ignore_file] = …` replaces only that key, keeps the dictionary order and the tree valid |
| Ignores.ReadPatterns | ignore.py:111-118 | the loop over the lines computes exactly `ParseIgnoreFile` of the text |
| Ignores.PatternsConcat | ignore.py:111-118 | the patterns of two runs of lines are those of each run, concatenated: every line is judged on its own and order is kept |
| Ignores.PatternsOne | ignore.py:112-118 | a single line yields its stripped text when that is neither empty nor a `#` comment, and nothing otherwise |
| Ignores.ParseJoined | ignore.py:111-118 | lines as `strip` leaves them (non-empty, without newline, without surrounding whitespace), joined with newlines, load as exactly the ones that are not `#` comments |
| Ignores.ParseJoinedComment | ignore.py:113-118 | such lines whose first is a comment and whose others are patterns load as all lines but the first |
| Ignores.DefaultIgnoresLoad | ignore.py:31-40 | the default `.flooignore` text that `create_flooignore` writes loads back as the default patterns without the leading `#*` comment line |
| Ignores.VisibleAllBare | ignore.py:112 | a line with no whitespace character left of `strip`'s run and no newline is one `strip` leaves unchanged |
| Ignores.ParseVisibleComment | ignore.py:111-118 | lines of printable non-space characters whose first is a comment and whose others are patterns load as all lines but the first |
| Ignores.Ignore.IsIgnored | ignore.py:138-164 | the method (with its stat cache) returns exactly `IgnoredBy`: the first local match or else the parent's verdict |
| Ignores.Ignore.IgnoredByChain | ignore.py:138-164 | a path is not ignored exactly when no pattern of this node and no pattern of any ancestor matches it |
| Ignores.Ignore.MatchFile | ignore.py:141-161 | the loop over one file's patterns returns the first hit, and the cached directory bit agrees with `stat` |
| Ignores.Ignore.MatchPattern | ignore.py:142-161 | one pattern is judged as `PatternHit`; a `stat` made for it is cached without changing the answer |
| Ignores.FirstHitInNone | ignore.py:141-161 | no message comes from a file's patterns exactly when none of them hits |
| Ignores.FirstHitInFirst | ignore.py:141-161 | a message comes from the first pattern that hits, every earlier one missing |
| Ignores.FirstHitNone | ignore.py:140-161 | a node reports nothing exactly when no pattern of any of its files hits |
| Ignores.FirstHitFirst | ignore.py:140-161 | a node's message is the first hit of the first ignore file, in dictionary order, that has one |
| Ignores.AnchoredEntry | ignore.py:143-146 | a pattern starting with `/` hits a direct entry of the node exactly when `unfuck_path` of the empty head is the node's path and the name matches the rest of the pattern |
| Ignores.DirPatternSkipsFiles | ignore.py:148-157 | a pattern ending in `/` never hits a path that is not a directory |
| Ignores.DirPatternHit | ignore.py:148-161 | a directory pattern `lit/` hits a directory exactly when its name or its relative path is `lit`, and reports the pattern without the slash |
| Ignores.PlainPatternHit | ignore.py:158-161 | a pattern without wildcards or slashes hits exactly when it is the last name or the whole relative path |
| Ignores.SuffixPatternHit | ignore.py:158-161 | `*lit` hits exactly the paths whose last name ends with `lit` |
| Ignores.TooBigHit | ignore.py:134-135 | any hit from the `/TOO_BIG/` list carries the too-big message |
| Ignores.TooBigShadows | ignore.py:140-161 | a name recorded as too big is reported with the too-big message by the node that recorded it, before any ignore file |
| Ignores.TooBigMessage | ignore.py:133-135 | the too-big message spells out 5242880 bytes |
| Ignores.DecimalRoundTrip | ignore.py:135 | `str(n)` is a decimal spelling that reads back as `n` |
| Ignores.Ignore.AddFile | ignore.py:78-105 | by the entry's fate: a directory becomes a fresh child node under its name; a large file appends its name to `/TOO_BIG/`; an accepted file appends its joined path to `files` and adds its size; blacklisted, `.`/`..`, ignored, unstatable and irregular entries change nothing; the tree stays valid and every accepted file stays a regular file of `fs` of its recorded size |
| Ignores.Ignore.Classify | ignore.py:79-100 | the checks run in the source's order (blacklist, dots, `is_ignored`, `stat`, kind, size), and their outcome is the fate of the entry |
| Ignores.Ignore.AddRegular | ignore.py:99-105 | a file above `MAX_FILE_SIZE` is recorded under `/TOO_BIG/` and not counted; otherwise its joined path is appended and its size added |
| Ignores.Ignore.AddChild | ignore.py:94-98 | a subdirectory becomes a fresh valid child whose parent is this node and whose path is `unfuck_path` of the joined path; nothing else of this node changes |
| Ignores.Ignore.Attach | ignore.py:96 | `self.children[p] = ig` keeps the dictionary order, extends the footprint by the child's and keeps the tree valid |
| Ignores.Ignore.NewNode | ignore.py:95 | `Ignore(p_path, self)` is a fresh valid node whose parent is this node, whose path is `unfuck_path(p_path)` and whose contents are those `Initialized` describes for a non-root node |
| Ignores.Ignore.GetChildrenReaches | ignore.py:120-124 | `get_children` holds exactly the nodes reachable by a non-empty walk down children |
| Ignores.Ignore.ListedReached | ignore.py:120-124 | every node `get_children` returns is reached by some non-empty walk |
| Ignores.Ignore.ReachedListed | ignore.py:120-124 | every node reached by a non-empty walk is returned by `get_children` |
| Ignores.Ignore.ListPathsOwn | ignore.py:126-128 | with an absolute node path, `list_paths` starts with the node's own files, unchanged and in order |
| Ignores.Ignore.ListPathsCover | ignore.py:126-131 | every file of every node of the subtree is yielded, joined onto its node's path |
| Ignores.Ignore.ListPathsFrom | ignore.py:126-131 | everything `list_paths` yields is a file of some node of the subtree, joined onto that node's path |
| Ignores.FlattenIn | ignore.py:130-131 | what the nested loops over the children's lists yield comes from one of those lists |
| Ignores.Ignore.WalkDeepest | ignore.py:204-208 | the walk follows a prefix of the components that are children, and stops only at the end or at the first component that is not a child |
| Ignores.GetForPath | ignore.py:196-210 | `None` for an unshared path or one that is not a directory; otherwise the deepest node, reached by the components of `to_rel_path(path)`, of the fresh tree the constructor builds from `fs` at `unfuck_path(base_path)`: a root whose lists, files, size and children are those `Initialized` describes for a recursive build |
| Ignores.FreshNodeIgnored | ignore.py:189-190 | `Ignore(base, recurse=False).is_ignored(a)` is the first local match of a fresh root node with the built-in lists and the ignore files of `base` |
| Ignores.IsPathIgnored | ignore.py:179-193 | the recursive method, which builds a node per directory, computes `PathIgnored` |
| Ignores.PathIgnoredClimb | ignore.py:179-193 | `PathIgnored` is a climb whose steps answer `True` for an unshared path, `False` at the root of the share, `True` where a fresh node ignores the path, and otherwise go on to the head |
| Ignores.ClimbAnswer | ignore.py:179-193 | a climb answers `b` exactly when after finitely many steps up it reaches a directory that answers `b` |
| Ignores.DictPut | ignore.py:110 | storing under a key keeps a present key's place in the dictionary order and appends a new one |
| Paths.ChildRelPath | ignore.py:139-142 | for an entry of a normal absolute directory, `relpath` from the directory is the entry's name, and its `split` is `("", name)` |
| Paths.RelPathShape | ignore.py:139 | `relpath` is never empty and never ends in a slash |
| Paths.SplitSpec | ignore.py:142 | the tail of `split` is what follows the last slash; the head is a prefix before it, and is the whole path exactly when the path is only slashes |
| Paths.TailSuffix | ignore.py:158-160 | a path ends in a text without slashes exactly when its last name does |
| Glob.MatchLiteral | ignore.py:158-160 | a pattern without wildcards matches exactly the text it spells |
| Glob.MatchStarSuffix | ignore.py:158-160 | `*lit` matches exactly the texts that end with `lit` |
| Glob.MatchSelf | ignore.py:158 | every text matches itself as a pattern, wildcards included |
| Text.JoinSplit | ignore.py:111 | joining the pieces of `split('\n')` gives the text back |
| Text.SplitJoin | ignore.py:111 | splitting joined pieces that have no separator gives the pieces back |
| Text.StripSpec | ignore.py:112 | `strip` keeps one contiguous run of the line and drops only whitespace on either side |
| Reactors.Reactor.constructor | reactor.py:18-20 | a new reactor tracks no connections and no factories |
| Reactors.Reactor.Connect | reactor.py:22-26 | the built connection is appended before it connects and the factory only after a successful connect; if building raises, nothing is appended; the calls made are recorded in order |
| Reactors.Reactor.Stop | reactor.py:28-33 | stops every connection in order and then empties both lists; a `stop` that raises leaves both lists as they were |
| Reactors.CallsNormal | reactor.py:29-30 | a run of calls ends normally exactly when none of them raises, and then every call is made |
| Reactors.CallsRaised | reactor.py:29-30 | a run that raises stops at the first call that raises, after making it and every earlier one |
| Reactors.Reactor.IsReady | reactor.py:37-43 | the answer is `AllReady` of the factories |
| Reactors.AllReadyIff | reactor.py:37-43 | ready exactly when some factory is registered and every factory says it is ready |
| Reactors.Reactor.Tick | reactor.py:50-53 | ticks every factory in order; if none raises, runs one `select` pass; the lists are unchanged |
| Reactors.Reactor.Select | reactor.py:55-98 | the method's effect and outcome are exactly one `Pass` with the corrected `_reconnect` |
| Reactors.Reactor.Classify | reactor.py:59-66 | the three lists are the descriptors that each connection's interest puts in them, in connection order, and the map is the descriptor map |
| Reactors.FdMapLastWins | reactor.py:64-66 | a descriptor maps to the last connection that has it |
| Reactors.FdMapKeys | reactor.py:64-66 | the map's keys are exactly the connections' descriptors |
| Reactors.FdMapKeyed | reactor.py:66 | every connection in the map is stored under its own descriptor |
| Reactors.ListedDistinct | reactor.py:64-65 | with distinct descriptors, each list holds each descriptor at most once, and only descriptors of connections |
| Reactors.ListedCovered | reactor.py:64-66 | every listed descriptor is a key of the map, so the lookups of the pass never fail |
| Reactors.PassIdle | reactor.py:55-69 | without factories, or when nothing wants to read or write, the pass makes no call and returns |
| Reactors.ProbeFailure | reactor.py:71-78 | with the corrected reconnect, after a failed probe a single readable descriptor's connection is reconnected and the pass returns, raising only if that reconnect does; in every other case the pass raises |
| Reactors.ProbeFailureOne | reactor.py:75-77 | with the corrected reconnect and one connection that wants to read, a failed probe leads to exactly one reconnect of it |
| Reactors.ProbeFailureTwo | reactor.py:78 | with two readable connections, a failed probe raises with no reconnect |
| Reactors.PassDispatch | reactor.py:71-82 | after a successful probe the pass dispatches the three reported subsets, all of them keys of the map |
| Reactors.Reactor.DispatchResults | reactor.py:80-98 | the three loops together compute `Dispatch` |
| Reactors.Reactor.ErrorLoop | reactor.py:80-82 | the loop over the error set computes `ExceptPhase` |
| Reactors.Reactor.WriteLoop | reactor.py:84-90 | the loop over the writable set computes `WritePhase` |
| Reactors.Reactor.ReadLoop | reactor.py:92-98 | the loop over the readable set computes `ReadPhase` |
| Reactors.Reactor.Reconnect | reactor.py:45-48 | the corrected `_reconnect` removes the descriptor from every given list and then reconnects |
| Reactors.ExceptRemoves | reactor.py:80-82 | the error loop only reconnects; when it finishes, its read and write lists hold none of the error descriptors, are sub-lists of the originals and stay duplicate-free |
| Reactors.WriteEvents | reactor.py:84-90 | the write loop only writes to writable descriptors and reconnects; when it goes on, every write succeeded and the read list is unchanged |
| Reactors.ReadEvents | reactor.py:92-98 | the read loop only reads readable descriptors and reconnects |
| Reactors.ReadsAll | reactor.py:92-98 | a read that raises is followed at once by the reconnect of that same connection; when the read loop ends normally every readable connection was read |
| Reactors.ReadFailureReconnects | reactor.py:92-98 | in the read loop, a read that raises is followed at once by the reconnect of that connection |
| Reactors.ErroredNotDispatched | reactor.py:80-98 | no connection in the error set is written to or read from later in the pass |
| Reactors.PassErroredNotDispatched | reactor.py:64-98 | over a whole pass, with distinct descriptors, no error-set connection is written to or read from |
| Reactors.WriteFailureEndsPass | reactor.py:84-92 | once a write raises, the rest of the pass is the reconnect of that connection and nothing else: no later write and no read |
| Reactors.WriteFailureLast | reactor.py:84-90 | a write that raises is followed by the reconnect of its connection, which ends the pass |
| Reactors.WriteFailureNoRead | reactor.py:84-98 | once a write has raised, the pass holds no read |
| Reactors.WithoutDistinct | reactor.py:46-47 | removing a descriptor from a duplicate-free list leaves it absent and the list duplicate-free |
| Reactors.UnboundErrorRaises | reactor.py:80-82 | as written, any error-set descriptor makes the pass raise before any reconnect, write or read |
| Reactors.UnboundWriteRaises | reactor.py:86-90 | as written, a failing first write makes the pass raise without reconnecting |
| Reactors.SelfBoundAbsentRaises | reactor.py:45-47 | with `self` added, an error-set descriptor that is not also readable makes the pass raise |
| Reactors.ProbeFailureAsWritten | reactor.py:71-78 | as written, a failed probe always makes the pass raise without any reconnect, also with a single readable descriptor |
| Reactors.CorrectedErrorReconnects | reactor.py:80-82 | with the corrected `_reconnect`, the first error-set connection is reconnected first |

## Left out

- Logging and editor status messages (`msg`, `editor`) are not modelled: they do not change state the model tracks.
- `create_flooignore`'s existence check and file write are not modelled; the text it writes is covered by `DefaultIgnoresLoad`.
- `HIDDEN_WHITELIST` is declared as in the source; nothing in the modelled code reads it.
- `handlers/credentials.py` is not part of this model.
- The module-level `reactor` singleton is not modelled: it is an instance made with the constructor.
- `MAX_RETRIES`, `INITIAL_RECONNECT_DELAY` and the reconnect policy behind `reconnect()` belong to the connections, which are oracles here.
- `host`, `port` and `secure` are not modelled: `connect` only passes them to `build_protocol`, whose result comes from the `World`.
- `utils.unfuck_path`, `utils.is_shared`, `utils.to_rel_path` and `os.getcwd()` are opaque fields of `Env`, not their implementations.
- Errors of `os.listdir`, `open`, `read` and `stat` are modelled as the path missing from the filesystem map, or as an entry of the wrong kind. File contents are text; encodings are not modelled.
- Glob.Match: `fnmatch` character classes (`[...]`) are not modelled; `[` and `]` match themselves.
- Ignores.Ignore.constructor: subdirectories are built `fuel` levels deep; a node below that depth is built with `recurse` off. `fuel` stands for the unbounded recursion of the source, whose depth a finite directory tree bounds.
- Ignores.Ignore.IsIgnored: requires a non-empty path. Python raises `ValueError` from `relpath` for an empty one, and `add_file` never passes one.
- Ignores.Ignore.GetChildrenReaches: states which nodes `get_children` returns, not how many times or in which order. In Python 2, `children += …` extends the list that the loop is iterating over, so grandchildren are visited again and deeper nodes appear more than once. In Python 3, `dict.values()` cannot be extended with `+=` and the call raises `TypeError`. The model lists every descendant once, children first.
- Ignores.Ignore.ListPathsCover: `list_paths` is a generator; the model is the list of everything it yields, in order.
- Ignores.PathIgnored: `None` stands for a call that raises. That covers `ValueError` on an empty path and the endless recursion at a path made only of slashes, without telling the two apart.
- Reactors.Reactor.Select: the result lists of `select.select` are values passed between the loops, not lists mutated in place. The model follows the source in removing from them the descriptors already handled.
- The connections' `fileno` and `fd_set`, the factories' `is_ready` and `build_protocol`, `select.select` and whether each call raises are oracles. Connections, factories and the operating system are not modelled beyond them.
- Reactors.Reactor.Select: the pass uses the corrected `_reconnect` (see Findings). The behaviour as written is stated by the finding lemmas.
- Reactors.ProbeFailure: states the outcome, not the error message the probe failure returns. The corrected pass is proved; the pass as written is stated by `ProbeFailureAsWritten`.
- Text.IsSpace: whitespace is that of Python 3's `str.isspace`, Unicode spaces included. Python 2's `strip()` on a byte string removes only ASCII whitespace, so a line padded with a non-ASCII space is stripped further here than there.
- Reactors.World: the oracles `ready`, `fileno` and `interest`, which stand for `is_ready`, `fileno` and `fd_set`, never raise, and these calls are not recorded in the trace. In the source any of them could raise and end `is_ready` or the pass early.
- Ignores.GetForPath: of the tree it walks, only the root's contents are stated (`Initialized`); the nodes below it, the one returned included, are described by the tree invariant and by what `NewNode` promised when it built them, which `GetForPath`'s contract does not repeat.
- Ignores.Ignore.Initialized: a child's contents are stated as they are when it is built; what a later `add_file` of the parent does is stated through `AddFile`, not carried into the child's `Initialized`.
- Concurrency is not modelled: the source runs on one thread, and calls into other objects happen in the order of the trace.

## Findings

| source | as written | input that shows it | evidently intended | confidence | as-written member | corrected member |
|---|---|---|---|---|---|---|
| reactor.py:45 | `_reconnect(fd, *fd_sets)` lacks `self`, so `self._reconnect(fd, _in, _out)` binds the reactor to `fd`. The connection becomes the first list, and `fd_set.remove` is then looked up on the connection. | any pass in which `select` reports a descriptor in the error set: the pass raises before any reconnect, write or read | `_reconnect(self, fd, *fd_sets)`: remove the descriptor from the result lists, then reconnect the connection | not executed | Reactors.UnboundErrorRaises | Reactors.CorrectedErrorReconnects |
| reactor.py:46-47 | `fd_set.remove(fd)` on each result list raises `ValueError` when the list does not hold the descriptor | an error-set descriptor that `select` does not also report readable (`_except == [d]`, `_in == []`) | remove the descriptor only from the lists that hold it | not executed | Reactors.SelfBoundAbsentRaises | Reactors.ExceptRemoves |
| reactor.py:76 | `readable[0].reconnect()` calls `reconnect` on `readable[0]`, an element of `select`'s result, which is a descriptor number; the `AttributeError` escapes the `except` handler | a failed probe with exactly one readable descriptor: the pass raises and nothing is reconnected | `fd_map[readable[0]].reconnect()`: reconnect the connection that holds the descriptor | not executed | Reactors.ProbeFailureAsWritten | Reactors.ProbeFailureOne |
