/** A file system with symbolic links: walking a path, `os.mkdir`, `Path.mkdir(parents=True)`. */
module FileSystem {
  import opened Text
  import opened Archive

  datatype Node = Directory | Regular(content: string, mode: nat) | Link(target: string)

  /** Every node by its real path. The root is always there. */
  type Fs = map<Path, Node>

  datatype Found = At(path: Path) | Missing | Refused

  const MAX_LINKS := 40

  predicate IsDirectory(fs: Fs, path: Path) {
    path == [] || (path in fs && fs[path].Directory?)
  }

  /** Where the parts lead from a real directory. Links on the way are followed, one in the last
      position only if `follow` says so; `fuel` bounds how many. */
  function Walk(fs: Fs, at: Path, parts: seq<string>, follow: bool, fuel: nat): Found
    decreases fuel, |parts|
  {
    if parts == [] then At(at)
    else if parts[0] == ".." then Walk(fs, Parent(at), parts[1..], follow, fuel)
    else
      var next, rest := at + [parts[0]], parts[1..];
      if rest == [] && !follow then At(next)
      else if next !in fs then if rest == [] then At(next) else Missing
      else
        match fs[next]
        case Directory => Walk(fs, next, rest, follow, fuel)
        case Regular(_, _) => if rest == [] then At(next) else Refused
        case Link(target) =>
          if fuel == 0 then Refused
          else if target == "" then Missing
          else Walk(fs, if target[0] == '/' then [] else at, PathParts(target) + rest, follow, fuel - 1)
  }

  function Locate(fs: Fs, path: Path, follow: bool): Found {
    Walk(fs, [], path, follow, MAX_LINKS)
  }

  /** `is_dir()` */
  predicate IsDir(fs: Fs, path: Path) {
    var found := Locate(fs, path, true);
    found.At? && IsDirectory(fs, found.path)
  }

  /** `is_file()` */
  predicate IsFile(fs: Fs, path: Path) {
    var found := Locate(fs, path, true);
    found.At? && found.path in fs && fs[found.path].Regular?
  }

  /** `is_symlink()` */
  predicate IsSymlink(fs: Fs, path: Path) {
    var found := Locate(fs, path, false);
    found.At? && found.path in fs && fs[found.path].Link?
  }

  datatype Made = Done(fs: Fs) | NotFound | Failed

  /** A new node at a path that must not exist yet: `os.mkdir`, `os.symlink`, `O_CREAT | O_EXCL`. */
  function MakeNode(fs: Fs, path: Path, node: Node): Made {
    var found := Locate(fs, path, false);
    match found
    case Missing => NotFound
    case Refused => Failed
    case At(place) => if place == [] || place in fs then Failed else Done(fs[place := node])
  }

  function MakeLast(fs: Fs, path: Path): Option<Fs> {
    var made := MakeNode(fs, path, Directory);
    if made.Done? then Some(made.fs) else if IsDir(fs, path) then Some(fs) else None
  }

  /** `mkdir(parents=True, exist_ok=True)` */
  function MakeAll(fs: Fs, path: Path): Option<Fs>
    decreases |path|
  {
    var made := MakeNode(fs, path, Directory);
    match made
    case Done(next) => Some(next)
    case Failed => if IsDir(fs, path) then Some(fs) else None
    case NotFound =>
      if path == [] then None
      else
        var up := MakeAll(fs, Parent(path));
        if up.None? then None else MakeLast(up.value, path)
  }

  // ---- growth ------------------------------------------------------------------------------

  /** Old nodes stay as they are, and no new one is a regular file. */
  predicate Grows(a: Fs, b: Fs) {
    && (forall k | k in a :: k in b && b[k] == a[k])
    && (forall k | k in b :: k in a || !b[k].Regular?)
  }

  lemma GrowsTransitive(a: Fs, b: Fs, c: Fs)
    requires Grows(a, b) && Grows(b, c)
    ensures Grows(a, c)
  {
  }

  /** Making directories, through whatever links, neither adds nor changes a regular file. */
  lemma {:induction false} MakeAllGrows(fs: Fs, path: Path)
    ensures MakeAll(fs, path).Some? ==> Grows(fs, MakeAll(fs, path).value)
    decreases |path|
  {
    if path != [] {
      MakeAllGrows(fs, Parent(path));
    }
  }

  /** Directories and links are as before, and regular files still are regular files. */
  predicate Keeps(a: Fs, b: Fs) {
    forall k | k in a :: k in b && (if a[k].Regular? then b[k].Regular? else b[k] == a[k])
  }

  /** A walk that found its place finds it again when nodes have been added elsewhere. */
  lemma {:induction false} WalkKeeps(a: Fs, b: Fs, at: Path, parts: seq<string>, fuel: nat)
    requires Keeps(a, b) && Walk(a, at, parts, false, fuel).At?
    ensures Walk(b, at, parts, false, fuel) == Walk(a, at, parts, false, fuel)
    decreases fuel, |parts|
  {
    if parts != [] {
      var next, rest := at + [parts[0]], parts[1..];
      if parts[0] == ".." {
        WalkKeeps(a, b, Parent(at), rest, fuel);
      } else if rest != [] {
        match a[next]
        case Directory => WalkKeeps(a, b, next, rest, fuel);
        case Link(target) =>
          WalkKeeps(a, b, if target[0] == '/' then [] else at, PathParts(target) + rest, fuel - 1);
      }
    }
  }

  predicate Plain(path: Path) {
    forall i | 0 <= i < |path| :: path[i] != ".."
  }

  // ---- trees without links ---------------------------------------------------------------------

  /** The path and everything above it are real directories. */
  predicate RealDirs(fs: Fs, path: Path) {
    forall n | 0 <= n <= |path| :: IsDirectory(fs, path[..n])
  }

  predicate Beneath(base: Path, k: Path) {
    base < k
  }

  /** Below a real directory there are no links, and everything is reached through directories. */
  predicate Tree(fs: Fs, base: Path) {
    && RealDirs(fs, base)
    && forall k | k in fs && Beneath(base, k) :: !fs[k].Link? && RealDirs(fs, Parent(k))
  }

  predicate NoLinkOn(fs: Fs, at: Path, parts: seq<string>) {
    forall n | 0 < n <= |parts| :: at + parts[..n] in fs ==> !fs[at + parts[..n]].Link?
  }

  /** Without links on the way a walk ends where its text says. */
  lemma {:induction false} WalkLiteral(fs: Fs, at: Path, parts: seq<string>, follow: bool, fuel: nat)
    requires Plain(parts) && NoLinkOn(fs, at, parts)
    ensures Walk(fs, at, parts, follow, fuel).At? ==> Walk(fs, at, parts, follow, fuel).path == at + parts
    ensures Walk(fs, at, parts, follow, fuel).At? ==> forall n | 0 < n < |parts| :: IsDirectory(fs, at + parts[..n])
    decreases |parts|
  {
    if parts == [] {
      assert at + parts == at;
    } else {
      var next, rest := at + [parts[0]], parts[1..];
      assert at + parts[..1] == next;
      assert next + rest == at + parts;
      forall n | 0 < n <= |rest|
        ensures next + rest[..n] == at + parts[..n + 1]
      {
        assert parts[..n + 1] == [parts[0]] + rest[..n];
      }
      WalkLiteral(fs, next, rest, follow, fuel);
      if Walk(fs, at, parts, follow, fuel).At? {
        forall n | 0 < n < |parts|
          ensures IsDirectory(fs, at + parts[..n])
        {
          if n > 1 {
            assert at + parts[..n] == next + rest[..n - 1];
          }
        }
      }
    }
  }

  lemma TreeNoLinks(fs: Fs, base: Path, path: Path)
    requires Tree(fs, base) && base <= path
    ensures NoLinkOn(fs, [], path)
  {
    forall n | 0 < n <= |path|
      ensures [] + path[..n] in fs ==> !fs[[] + path[..n]].Link?
    {
      var k := path[..n];
      assert [] + k == k;
      if n <= |base| {
        assert k == base[..n];
        assert IsDirectory(fs, base[..n]);
      }
    }
  }

  lemma ProperDirs(fs: Fs, path: Path)
    requires path != [] && forall n | 0 < n < |path| :: IsDirectory(fs, [] + path[..n])
    ensures RealDirs(fs, Parent(path))
  {
    var parent := Parent(path);
    forall n | 0 <= n <= |parent|
      ensures IsDirectory(fs, parent[..n])
    {
      assert parent[..n] == [] + path[..n];
    }
  }

  lemma TreeLocates(fs: Fs, base: Path, path: Path, follow: bool)
    requires Tree(fs, base) && base <= path && Plain(path)
    ensures var found := Locate(fs, path, follow);
            found.At? ==> found.path == path && (path == [] || RealDirs(fs, Parent(path)))
  {
    TreeNoLinks(fs, base, path);
    WalkLiteral(fs, [], path, follow, MAX_LINKS);
    assert [] + path == path;
    if Locate(fs, path, follow).At? && path != [] {
      ProperDirs(fs, path);
    }
  }

  lemma BelowParent(fs: Fs, base: Path, k: Path, node: Node)
    requires Tree(fs, base) && Beneath(base, k) && k !in fs && RealDirs(fs, Parent(k)) && !node.Link?
    ensures Tree(fs[k := node], base)
  {
    var next := fs[k := node];
    KeepsDirs(fs, next, base);
    forall j | j in next && Beneath(base, j)
      ensures !next[j].Link? && RealDirs(next, Parent(j))
    {
      KeepsDirs(fs, next, Parent(j));
    }
  }

  lemma KeepsDirs(a: Fs, b: Fs, path: Path)
    requires Keeps(a, b) && RealDirs(a, path)
    ensures RealDirs(b, path)
  {
    forall n | 0 <= n <= |path|
      ensures IsDirectory(b, path[..n])
    {
      assert IsDirectory(a, path[..n]);
    }
  }

  lemma ProperPrefix(base: Path, path: Path)
    requires base <= path && base != path
    ensures Beneath(base, path)
  {
  }

  lemma SelfDirectory(fs: Fs, path: Path)
    requires RealDirs(fs, path)
    ensures IsDirectory(fs, path)
  {
    assert path[..|path|] == path;
  }

  /** A node made in such a tree is made where its path says, below directories. */
  lemma MadeInTree(fs: Fs, base: Path, path: Path, node: Node)
    requires Tree(fs, base) && base <= path && Plain(path) && !node.Link?
    requires MakeNode(fs, path, node).Done?
    ensures Beneath(base, path) && path !in fs && MakeNode(fs, path, node).fs == fs[path := node]
    ensures RealDirs(fs, Parent(path)) && Tree(fs[path := node], base)
  {
    TreeLocates(fs, base, path, false);
    SelfDirectory(fs, base);
    ProperPrefix(base, path);
    BelowParent(fs, base, path, node);
  }

  /** All that is new are directories below `base`, on the way to `path`. */
  predicate OnlyDirectoriesAdded(a: Fs, b: Fs, base: Path, path: Path) {
    && (forall k | k in a :: k in b && b[k] == a[k])
    && (forall k | k in b :: k in a || (Beneath(base, k) && k <= path && b[k].Directory?))
  }

  lemma LastDir(fs: Fs, path: Path)
    requires path == [] || RealDirs(fs, Parent(path))
    requires IsDirectory(fs, path)
    ensures RealDirs(fs, path)
  {
    forall n | 0 <= n <= |path|
      ensures IsDirectory(fs, path[..n])
    {
      if n < |path| {
        assert Parent(path)[..n] == path[..n];
      } else {
        assert path[..n] == path;
      }
    }
  }

  lemma MakeLastTree(fs: Fs, base: Path, path: Path)
    requires Tree(fs, base) && base <= path && Plain(path) && MakeLast(fs, path).Some?
    ensures var next := MakeLast(fs, path).value;
            Tree(next, base) && RealDirs(next, path) && OnlyDirectoriesAdded(fs, next, base, path)
  {
    var next := MakeLast(fs, path).value;
    if MakeNode(fs, path, Directory).Done? {
      MadeInTree(fs, base, path, Directory);
      KeepsDirs(fs, next, Parent(path));
    } else {
      TreeLocates(fs, base, path, true);
    }
    LastDir(next, path);
  }

  /** `mkdir` with parents makes real directories of the whole path, and nothing else. */
  lemma {:induction false} MakeAllTree(fs: Fs, base: Path, path: Path)
    requires Tree(fs, base) && base <= path && Plain(path) && MakeAll(fs, path).Some?
    ensures var next := MakeAll(fs, path).value;
            Tree(next, base) && RealDirs(next, path) && OnlyDirectoriesAdded(fs, next, base, path)
    decreases |path|
  {
    if MakeNode(fs, path, Directory).NotFound? {
      if path == base {
        RealFound(fs, base);
      } else {
        MakeAllTree(fs, base, Parent(path));
        MakeLastTree(MakeAll(fs, Parent(path)).value, base, path);
      }
    } else {
      MakeLastTree(fs, base, path);
    }
  }

  lemma {:induction false} WalkDirs(fs: Fs, at: Path, parts: seq<string>, follow: bool, fuel: nat)
    requires Plain(parts) && forall n | 0 < n < |parts| :: IsDirectory(fs, at + parts[..n])
    requires follow ==> parts == [] || at + parts !in fs || !fs[at + parts].Link?
    ensures Walk(fs, at, parts, follow, fuel) == At(at + parts)
    decreases |parts|
  {
    if parts == [] {
      assert at + parts == at;
    } else {
      var next, rest := at + [parts[0]], parts[1..];
      assert at + parts[..1] == next && next + rest == at + parts;
      forall n | 0 < n < |rest|
        ensures IsDirectory(fs, next + rest[..n])
      {
        assert next + rest[..n] == at + parts[..n + 1];
      }
      if rest != [] || follow {
        if rest == [] {
          assert next == at + parts;
        }
        WalkDirs(fs, next, rest, follow, fuel);
      }
    }
  }

  /** A real directory is found, and cannot be made again. */
  lemma RealFound(fs: Fs, path: Path)
    requires RealDirs(fs, path) && Plain(path)
    ensures Locate(fs, path, true) == At(path) && Locate(fs, path, false) == At(path)
    ensures forall node :: MakeNode(fs, path, node) == Failed
    ensures MakeAll(fs, path) == Some(fs)
  {
    SelfDirectory(fs, path);
    assert [] + path == path;
    forall n | 0 < n < |path|
      ensures IsDirectory(fs, [] + path[..n])
    {
      assert [] + path[..n] == path[..n];
    }
    WalkDirs(fs, [], path, false, MAX_LINKS);
    WalkDirs(fs, [], path, true, MAX_LINKS);
  }

  /** A regular file below real directories is found where its path says. */
  lemma RegularFound(fs: Fs, path: Path)
    requires Plain(path) && path != [] && RealDirs(fs, Parent(path)) && path in fs && fs[path].Regular?
    ensures Locate(fs, path, true) == At(path) && Locate(fs, path, false) == At(path)
    ensures IsFile(fs, path) && !IsSymlink(fs, path)
  {
    assert [] + path == path;
    forall n | 0 < n < |path|
      ensures IsDirectory(fs, [] + path[..n])
    {
      assert [] + path[..n] == Parent(path)[..n];
    }
    WalkDirs(fs, [], path, false, MAX_LINKS);
    WalkDirs(fs, [], path, true, MAX_LINKS);
  }

  lemma DirOnWay(fs: Fs, path: Path, k: Path)
    requires RealDirs(fs, path) && k <= path
    ensures k != [] ==> k in fs && fs[k].Directory?
  {
    assert path[..|k|] == k;
  }

  lemma FileAbove(fs: Fs, k: Path, path: Path)
    requires k in fs && fs[k].Regular? && k != [] && k <= path && k != path
    ensures !RealDirs(fs, path) && !RealDirs(fs, Parent(path))
  {
    assert Parent(path)[..|k|] == k && path[..|k|] == k;
  }

  // ---- when making succeeds --------------------------------------------------------------------

  /** Whatever stands on the way to the path, or at it, is a directory. */
  predicate Clear(fs: Fs, path: Path) {
    forall n | 0 < n <= |path| :: path[..n] in fs ==> fs[path[..n]].Directory?
  }

  predicate PrefixesAdded(a: Fs, b: Fs, path: Path) {
    && (forall k | k in a :: k in b && b[k] == a[k])
    && (forall k | k in b :: k in a || (k <= path && b[k].Directory?))
  }

  /** Past directories alone a walk ends or misses, but is not refused. */
  lemma {:induction false} WalkClear(fs: Fs, at: Path, parts: seq<string>, fuel: nat)
    requires Plain(parts)
    requires forall n | 0 < n <= |parts| :: at + parts[..n] in fs ==> fs[at + parts[..n]].Directory?
    ensures !Walk(fs, at, parts, false, fuel).Refused?
    decreases |parts|
  {
    if parts != [] {
      var next, rest := at + [parts[0]], parts[1..];
      assert at + parts[..1] == next;
      forall n | 0 < n <= |rest|
        ensures next + rest[..n] == at + parts[..n + 1]
      {
        assert parts[..n + 1] == [parts[0]] + rest[..n];
      }
      WalkClear(fs, next, rest, fuel);
    }
  }

  /** If the way is not clear, it is so below any real directory on it. */
  lemma NotClear(fs: Fs, base: Path, path: Path) returns (k: Path)
    requires RealDirs(fs, base) && base <= path && !Clear(fs, path)
    ensures k <= path && Beneath(base, k) && k in fs && !fs[k].Directory?
  {
    var m :| 0 < m <= |path| && path[..m] in fs && !fs[path[..m]].Directory?;
    k := path[..m];
    if k <= base {
      DirOnWay(fs, base, k);
    }
  }

  lemma ClearLocates(fs: Fs, path: Path)
    requires Plain(path) && Clear(fs, path)
    ensures var found := Locate(fs, path, false);
            found == Missing || (found == At(path) && (path != [] ==> RealDirs(fs, Parent(path))))
  {
    forall n | 0 <= n <= |path|
      ensures [] + path[..n] == path[..n]
    {
    }
    assert [] + path == path;
    WalkClear(fs, [], path, MAX_LINKS);
    WalkLiteral(fs, [], path, false, MAX_LINKS);
    if Locate(fs, path, false).At? && path != [] {
      ProperDirs(fs, path);
    }
  }

  lemma ClearParent(fs: Fs, path: Path)
    requires Plain(path) && Clear(fs, path) && path != []
    ensures Plain(Parent(path)) && Clear(fs, Parent(path))
  {
    forall n | 0 < n <= |Parent(path)|
      ensures Parent(path)[..n] == path[..n]
    {
    }
  }

  lemma MakeLastClear(fs: Fs, path: Path)
    requires Plain(path) && Clear(fs, path) && path != [] && RealDirs(fs, Parent(path))
    ensures var made := MakeLast(fs, path);
            made.Some? && RealDirs(made.value, path) && PrefixesAdded(fs, made.value, path)
  {
    assert path[..|path|] == path;
    if path in fs {
      LastDir(fs, path);
      RealFound(fs, path);
    } else {
      FreeMade(fs, path, Directory);
      KeepsDirs(fs, fs[path := Directory], Parent(path));
      LastDir(fs[path := Directory], path);
    }
  }

  /** `mkdir` with parents succeeds on a clear way, and adds no more than that way. */
  lemma {:induction false} MakeAllClear(fs: Fs, path: Path)
    requires Plain(path) && Clear(fs, path)
    ensures var made := MakeAll(fs, path);
            made.Some? && RealDirs(made.value, path) && PrefixesAdded(fs, made.value, path)
    decreases |path|
  {
    ClearLocates(fs, path);
    if path == [] {
      RealFound(fs, path);
    } else if Locate(fs, path, false) == Missing {
      ClearParent(fs, path);
      MakeAllClear(fs, Parent(path));
      MakeLastClear(MakeAll(fs, Parent(path)).value, path);
    } else {
      MakeLastClear(fs, path);
    }
  }

  lemma LiteralDirs(fs: Fs, path: Path)
    requires path != [] && RealDirs(fs, Parent(path))
    ensures forall n | 0 <= n < |path| :: IsDirectory(fs, [] + path[..n])
  {
    forall n | 0 <= n < |path|
      ensures IsDirectory(fs, [] + path[..n])
    {
      assert [] + path[..n] == Parent(path)[..n];
    }
  }

  /** Below a real directory a node is made exactly if nothing stands there. */
  lemma FreeMade(fs: Fs, path: Path, node: Node)
    requires Plain(path) && path != [] && RealDirs(fs, Parent(path))
    ensures MakeNode(fs, path, node) == if path in fs then Failed else Done(fs[path := node])
  {
    LiteralDirs(fs, path);
    assert [] + path == path;
    WalkDirs(fs, [], path, false, MAX_LINKS);
  }

  lemma {:induction false} WalkStops(fs: Fs, at: Path, parts: seq<string>, follow: bool, fuel: nat, m: nat)
    requires Plain(parts) && 0 < m <= |parts| && forall n | 0 < n < m :: IsDirectory(fs, at + parts[..n])
    requires at + parts[..m] in fs && fs[at + parts[..m]].Regular?
    ensures Walk(fs, at, parts, follow, fuel) == if m == |parts| then At(at + parts) else Refused
    decreases m
  {
    var next, rest := at + [parts[0]], parts[1..];
    assert at + parts[..1] == next;
    if m == 1 {
      assert |parts| == 1 ==> at + parts == next;
    } else {
      forall n | 0 < n < m
        ensures next + rest[..n] == at + parts[..n + 1]
      {
        assert parts[..n + 1] == [parts[0]] + rest[..n];
      }
      assert next + rest == at + parts;
      WalkStops(fs, next, rest, follow, fuel, m - 1);
    }
  }

  /** A regular file on the way, below real directories, stops `mkdir`. */
  lemma FileStops(fs: Fs, path: Path, file: Path)
    requires Plain(path) && file != [] && file <= path && RealDirs(fs, Parent(file))
    requires file in fs && fs[file].Regular?
    ensures MakeAll(fs, path).None?
  {
    LiteralDirs(fs, file);
    assert [] + path[..|file|] == file && [] + path == path;
    forall n | 0 < n < |file|
      ensures IsDirectory(fs, [] + path[..n])
    {
      assert path[..n] == file[..n];
    }
    WalkStops(fs, [], path, false, MAX_LINKS, |file|);
    WalkStops(fs, [], path, true, MAX_LINKS, |file|);
    assert |file| == |path| ==> file == path;
  }

  // ---- making through links --------------------------------------------------------------------

  /** Every node stands in a directory, as in any file system. */
  predicate Closed(fs: Fs) {
    forall k | k in fs && k != [] :: IsDirectory(fs, Parent(k))
  }

  /** The path leads, through links or not, to a place where nothing stands. */
  predicate Free(fs: Fs, path: Path) {
    var found := Locate(fs, path, false);
    found.At? && found.path != [] && found.path !in fs
  }

  /** Some step of the path is free, so all before it are directories, and all after it would be new. */
  predicate Opens(fs: Fs, path: Path) {
    exists m | 0 < m <= |path| :: Free(fs, path[..m])
  }

  /** What is not a link is found whether links are followed at the end or not. */
  lemma {:induction false} WalkFollow(fs: Fs, at: Path, parts: seq<string>, fuel: nat)
    requires Walk(fs, at, parts, false, fuel).At?
    requires var d := Walk(fs, at, parts, false, fuel).path; d in fs ==> !fs[d].Link?
    ensures Walk(fs, at, parts, true, fuel) == Walk(fs, at, parts, false, fuel)
    decreases fuel, |parts|
  {
    if parts != [] {
      var next, rest := at + [parts[0]], parts[1..];
      if parts[0] == ".." {
        WalkFollow(fs, Parent(at), rest, fuel);
      } else if rest != [] {
        match fs[next]
        case Directory => WalkFollow(fs, next, rest, fuel);
        case Link(target) => WalkFollow(fs, if target[0] == '/' then [] else at, PathParts(target) + rest, fuel - 1);
      } else if next in fs && fs[next].Directory? {
        assert Walk(fs, next, [], true, fuel) == At(next);
      }
    }
  }

  /** What leads to a directory leads to something that is there, if the last link is not followed. */
  lemma {:induction false} WalkNoFollow(fs: Fs, at: Path, parts: seq<string>, fuel: nat)
    requires IsDirectory(fs, at) && Closed(fs)
    requires var found := Walk(fs, at, parts, true, fuel); found.At? && IsDirectory(fs, found.path)
    ensures var place := Walk(fs, at, parts, false, fuel); place.At? && (place.path == [] || place.path in fs)
    decreases fuel, |parts|
  {
    if parts != [] {
      var next, rest := at + [parts[0]], parts[1..];
      if parts[0] == ".." {
        WalkNoFollow(fs, Parent(at), rest, fuel);
      } else if rest != [] {
        match fs[next]
        case Directory => WalkNoFollow(fs, next, rest, fuel);
        case Link(target) => WalkNoFollow(fs, if target[0] == '/' then [] else at, PathParts(target) + rest, fuel - 1);
      }
    }
  }

  /** One step on from a directory. */
  lemma {:induction false} WalkOne(fs: Fs, at: Path, parts: seq<string>, c: string, fuel: nat)
    requires c != ".."
    requires var found := Walk(fs, at, parts, true, fuel); found.At? && IsDirectory(fs, found.path)
    ensures Walk(fs, at, parts + [c], false, fuel) == At(Walk(fs, at, parts, true, fuel).path + [c])
    decreases fuel, |parts|
  {
    var whole := parts + [c];
    if parts != [] {
      var next, rest := at + [parts[0]], parts[1..];
      assert whole[0] == parts[0] && whole[1..] == rest + [c];
      if parts[0] == ".." {
        WalkOne(fs, Parent(at), rest, c, fuel);
      } else {
        match fs[next]
        case Directory => WalkOne(fs, next, rest, c, fuel);
        case Regular(_, _) =>
        case Link(target) =>
          WalkOne(fs, if target[0] == '/' then [] else at, PathParts(target) + rest, c, fuel - 1);
          assert PathParts(target) + (rest + [c]) == PathParts(target) + rest + [c];
      }
    }
  }

  /** And back: what is found one step further is in a directory. */
  lemma {:induction false} WalkBack(fs: Fs, at: Path, parts: seq<string>, c: string, fuel: nat)
    requires c != ".." && IsDirectory(fs, at) && Closed(fs) && Walk(fs, at, parts + [c], false, fuel).At?
    ensures var found := Walk(fs, at, parts, true, fuel);
            && found.At? && IsDirectory(fs, found.path)
            && Walk(fs, at, parts + [c], false, fuel) == At(found.path + [c])
    decreases fuel, |parts|
  {
    var whole := parts + [c];
    if parts != [] {
      var next, rest := at + [parts[0]], parts[1..];
      assert whole[0] == parts[0] && whole[1..] == rest + [c];
      if parts[0] == ".." {
        WalkBack(fs, Parent(at), rest, c, fuel);
      } else {
        match fs[next]
        case Directory => WalkBack(fs, next, rest, c, fuel);
        case Link(target) =>
          assert PathParts(target) + (rest + [c]) == PathParts(target) + rest + [c];
          WalkBack(fs, if target[0] == '/' then [] else at, PathParts(target) + rest, c, fuel - 1);
      }
    }
  }

  /** Nothing is found beyond a free place. */
  lemma {:induction false} WalkBeyond(fs: Fs, at: Path, parts: seq<string>, more: seq<string>, fuel: nat)
    requires IsDirectory(fs, at) && Closed(fs) && more != []
    requires var found := Walk(fs, at, parts, false, fuel); found.At? && found.path != [] && found.path !in fs
    ensures Walk(fs, at, parts + more, false, fuel) == Missing
    decreases fuel, |parts|
  {
    var whole := parts + more;
    var next, rest := at + [parts[0]], parts[1..];
    assert whole[0] == parts[0] && whole[1..] == rest + more;
    if parts[0] == ".." {
      WalkBeyond(fs, Parent(at), rest, more, fuel);
    } else if rest != [] {
      match fs[next]
      case Directory => WalkBeyond(fs, next, rest, more, fuel);
      case Link(target) =>
        assert PathParts(target) + (rest + more) == PathParts(target) + rest + more;
        WalkBeyond(fs, if target[0] == '/' then [] else at, PathParts(target) + rest, more, fuel - 1);
    }
  }

  lemma DirFound(fs: Fs, path: Path)
    requires Closed(fs) && IsDir(fs, path)
    ensures MakeAll(fs, path) == Some(fs)
  {
    WalkNoFollow(fs, [], path, MAX_LINKS);
  }

  lemma FreeParent(fs: Fs, path: Path)
    requires Closed(fs) && Plain(path) && path != [] && Locate(fs, path, false).At?
    ensures IsDir(fs, Parent(path))
    ensures Locate(fs, path, false).path == Locate(fs, Parent(path), true).path + [path[|path| - 1]]
  {
    LastStep(path);
    StepBack(fs, Parent(path), path[|path| - 1]);
  }

  lemma LastStep(path: Path)
    requires path != []
    ensures path == Parent(path) + [path[|path| - 1]]
  {
  }

  lemma StepBack(fs: Fs, up: Path, c: string)
    requires Closed(fs) && c != ".." && Locate(fs, up + [c], false).At?
    ensures IsDir(fs, up) && Locate(fs, up + [c], false) == At(Locate(fs, up, true).path + [c])
  {
    WalkBack(fs, [], up, c, MAX_LINKS);
  }

  lemma StepDown(fs: Fs, up: Path, c: string)
    requires c != ".." && IsDir(fs, up)
    ensures Locate(fs, up + [c], false) == At(Locate(fs, up, true).path + [c])
  {
    WalkOne(fs, [], up, c, MAX_LINKS);
  }

  /** A directory made at a free path is found there. */
  lemma DirMade(fs: Fs, path: Path)
    requires Free(fs, path)
    ensures var d := Locate(fs, path, false).path;
            MakeNode(fs, path, Directory) == Done(fs[d := Directory]) && Locate(fs[d := Directory], path, true) == At(d)
  {
    var d := Locate(fs, path, false).path;
    WalkKeeps(fs, fs[d := Directory], [], path, MAX_LINKS);
    WalkFollow(fs[d := Directory], [], path, MAX_LINKS);
  }

  /** `g` has directories for the steps of the path from the free one on, down to `end`, and `fs` had not. */
  ghost predicate MadeDown(fs: Fs, g: Fs, path: Path, end: Path) {
    && Keeps(fs, g) && Locate(g, path, true) == At(end) && end in g && g[end].Directory?
    && end !in fs && end != []
    && forall k | k in g :: k in fs || |k| <= |end|
  }

  lemma MakeFree(fs: Fs, path: Path)
    requires Free(fs, path)
    ensures MakeAll(fs, path).Some? && MadeDown(fs, MakeAll(fs, path).value, path, Locate(fs, path, false).path)
  {
    DirMade(fs, path);
  }

  lemma Beyond(fs: Fs, path: Path, m: nat)
    requires Closed(fs) && m < |path| && Free(fs, path[..m])
    ensures MakeNode(fs, path, Directory) == NotFound
  {
    assert path[..m] + path[m..] == path;
    WalkBeyond(fs, [], path[..m], path[m..], MAX_LINKS);
  }

  /** From a free step on, `mkdir` makes what is left of the path. */
  lemma {:induction false} MakeDown(fs: Fs, path: Path, m: nat) returns (end: Path)
    requires Closed(fs) && Plain(path) && 0 < m <= |path| && Free(fs, path[..m])
    ensures MakeAll(fs, path).Some? && MadeDown(fs, MakeAll(fs, path).value, path, end)
    decreases |path|
  {
    if m == |path| {
      assert path[..m] == path;
      end := Locate(fs, path, false).path;
      MakeFree(fs, path);
    } else {
      var up := Parent(path);
      assert up[..m] == path[..m];
      Beyond(fs, path, m);
      var above := MakeDown(fs, up, m);
      end := OneDown(fs, MakeAll(fs, up).value, path, above);
    }
  }

  lemma NothingBelow(fs: Fs, g: Fs, path: Path, above: Path, c: string)
    requires Closed(fs) && MadeDown(fs, g, path, above)
    ensures above + [c] !in fs && above + [c] !in g
  {
    assert Parent(above + [c]) == above;
  }

  /** The last of these steps. */
  lemma OneDown(fs: Fs, g: Fs, path: Path, above: Path) returns (end: Path)
    requires Closed(fs) && Plain(path) && path != [] && MadeDown(fs, g, Parent(path), above)
    ensures Free(g, path) && MakeLast(g, path).Some? && MadeDown(fs, MakeLast(g, path).value, path, end)
  {
    var c := path[|path| - 1];
    end := above + [c];
    LastStep(path);
    StepDown(g, Parent(path), c);
    NothingBelow(fs, g, Parent(path), above, c);
    DirMade(g, path);
    OneMore(fs, g, g[end := Directory], path, above, end);
  }

  lemma OneMore(fs: Fs, g: Fs, h: Fs, path: Path, above: Path, end: Path)
    requires path != [] && MadeDown(fs, g, Parent(path), above) && Locate(h, path, true) == At(end)
    requires h == g[end := Directory] && |end| == |above| + 1 && end !in g && end !in fs
    ensures MadeDown(fs, h, path, end)
  {
  }

  /** Exactly when `mkdir` with parents succeeds, through any links: the path is a directory already, or
      opens at some step. */
  lemma MadeExactly(fs: Fs, path: Path)
    requires Closed(fs) && Plain(path)
    ensures MakeAll(fs, path).Some? <==> IsDir(fs, path) || Opens(fs, path)
  {
    if IsDir(fs, path) {
      DirFound(fs, path);
    } else if Opens(fs, path) {
      var m :| 0 < m <= |path| && Free(fs, path[..m]);
      var end := MakeDown(fs, path, m);
    }
    if MakeAll(fs, path).Some? {
      MadeOpens(fs, path);
    }
  }

  lemma {:induction false} MadeOpens(fs: Fs, path: Path)
    requires MakeAll(fs, path).Some?
    ensures (IsDir(fs, path) && MakeAll(fs, path).value == fs) || Opens(fs, path)
    decreases |path|
  {
    var made := MakeNode(fs, path, Directory);
    if made.Done? {
      assert path[..|path|] == path;
    } else if made.NotFound? {
      MadeOpens(fs, Parent(path));
      if Opens(fs, Parent(path)) {
        OpensFurther(fs, path);
      }
    }
  }

  lemma OpensFurther(fs: Fs, path: Path)
    requires Opens(fs, Parent(path)) && path != []
    ensures Opens(fs, path)
  {
    var m :| 0 < m <= |Parent(path)| && Free(fs, Parent(path)[..m]);
    assert Parent(path)[..m] == path[..m];
  }

  /** The parents made, a node can be made at the path exactly if the path opens. */
  lemma NodeExactly(fs: Fs, path: Path, node: Node)
    requires Closed(fs) && Plain(path)
    ensures (MakeAll(fs, Parent(path)).Some? && MakeNode(MakeAll(fs, Parent(path)).value, path, node).Done?)
       <==> Opens(fs, path)
  {
    if Opens(fs, path) {
      var m :| 0 < m <= |path| && Free(fs, path[..m]);
      if m == |path| {
        assert path[..m] == path;
        FreeParent(fs, path);
        DirFound(fs, Parent(path));
      } else {
        assert Parent(path)[..m] == path[..m];
        var above := MakeDown(fs, Parent(path), m);
        var end := OneDown(fs, MakeAll(fs, Parent(path)).value, path, above);
      }
    } else if MakeAll(fs, Parent(path)).Some? && path != [] {
      assert path[..|path|] == path;
      MadeOpens(fs, Parent(path));
      if Opens(fs, Parent(path)) {
        OpensFurther(fs, path);
      }
    }
  }

  lemma MakeNodeClosed(fs: Fs, path: Path, node: Node)
    requires Closed(fs) && Plain(path) && MakeNode(fs, path, node).Done?
    ensures Closed(MakeNode(fs, path, node).fs)
  {
    FreeParent(fs, path);
    var place := Locate(fs, path, false).path;
    assert Parent(place) == Locate(fs, Parent(path), true).path;
  }

  lemma {:induction false} MakeAllClosed(fs: Fs, path: Path)
    requires Closed(fs) && Plain(path) && MakeAll(fs, path).Some?
    ensures Closed(MakeAll(fs, path).value)
    decreases |path|
  {
    if MakeNode(fs, path, Directory).Done? {
      MakeNodeClosed(fs, path, Directory);
    } else if MakeNode(fs, path, Directory).NotFound? {
      MakeAllClosed(fs, Parent(path));
      var up := MakeAll(fs, Parent(path)).value;
      if MakeNode(up, path, Directory).Done? {
        MakeNodeClosed(up, path, Directory);
      }
    }
  }

  // ---- links -----------------------------------------------------------------------------------

  predicate LinkAt(fs: Fs, path: Path, target: string) {
    var found := Locate(fs, path, false);
    found.At? && found.path in fs && fs[found.path] == Link(target)
  }

  lemma LinkStays(a: Fs, b: Fs, path: Path, target: string)
    requires Keeps(a, b) && LinkAt(a, path, target)
    ensures LinkAt(b, path, target) && IsSymlink(b, path)
  {
    WalkKeeps(a, b, [], path, MAX_LINKS);
  }

  /** A link just made is found where it was made. */
  lemma LinkMade(fs: Fs, path: Path, target: string)
    requires MakeNode(fs, path, Link(target)).Done?
    ensures LinkAt(MakeNode(fs, path, Link(target)).fs, path, target)
    ensures Grows(fs, MakeNode(fs, path, Link(target)).fs)
  {
    WalkKeeps(fs, MakeNode(fs, path, Link(target)).fs, [], path, MAX_LINKS);
  }
}
