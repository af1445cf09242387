/** Extraction of a checked plan into a staging directory: directories and files, then links, then
    digests, then modes. */
module Extraction {
  import opened Text
  import opened Archive
  import opened FileSystem

  const PINNED_MODE := 0x1ED   // 0o755
  const PLAIN_MODE := 0x180    // 0o600

  /** The staging directory is real, empty, and has a path without `..`. */
  predicate EmptyStaging(fs: Fs, base: Path) {
    Plain(base) && RealDirs(fs, base) && forall k | k in fs :: !Beneath(base, k)
  }

  predicate PlainPlan(plan: seq<Entry>) {
    forall i | 0 <= i < |plan| :: Clean(plan[i].path)
  }

  lemma CleanIsPlain(base: Path, path: Path)
    requires Plain(base) && Clean(path)
    ensures Plain(base + path) && base <= base + path
    ensures path != [] ==> Parent(base + path) == base + Parent(path) && Plain(base + Parent(path))
  {
    forall i | 0 <= i < |base + path|
      ensures (base + path)[i] != ".."
    {
      assert i >= |base| ==> CleanPart(path[i - |base|]);
    }
    if path != [] {
      assert Parent(base + path) == base + Parent(path);
      assert forall i | 0 <= i < |base + Parent(path)| :: (base + Parent(path))[i] == (base + path)[i];
    }
  }

  // ---- after the first phase ---------------------------------------------------------------

  /** The regular files below `base` are exactly those of the first `n` entries. */
  ghost predicate FilesAre(fs: Fs, base: Path, plan: seq<Entry>, n: nat, mode: nat)
    requires n <= |plan|
  {
    && (forall i | 0 <= i < n && plan[i].member.kind.File? ::
          var k := base + plan[i].path;
          Beneath(base, k) && k in fs && fs[k] == Regular(plan[i].member.content, mode))
    && (forall k | k in fs && Beneath(base, k) && fs[k].Regular? ::
          exists i | 0 <= i < n && plan[i].member.kind.File? :: k == base + plan[i].path)
  }

  ghost predicate DirsAre(fs: Fs, base: Path, plan: seq<Entry>, n: nat)
    requires n <= |plan|
  {
    forall i | 0 <= i < n && plan[i].member.kind.Dir? :: RealDirs(fs, base + plan[i].path)
  }

  lemma DirsStay(a: Fs, b: Fs, base: Path, plan: seq<Entry>, n: nat)
    requires n <= |plan| && DirsAre(a, base, plan, n) && Keeps(a, b)
    ensures DirsAre(b, base, plan, n)
  {
    forall i | 0 <= i < n && plan[i].member.kind.Dir?
      ensures RealDirs(b, base + plan[i].path)
    {
      KeepsDirs(a, b, base + plan[i].path);
    }
  }

  /** Nothing outside the staging directory differs. */
  predicate SameOutside(a: Fs, b: Fs, base: Path) {
    && (forall k | k in a && !Beneath(base, k) :: k in b && b[k] == a[k])
    && (forall k | k in b && !Beneath(base, k) :: k in a)
  }

  /** The state after `n` entries of the first phase. */
  ghost predicate Filled(start: Fs, fs: Fs, base: Path, plan: seq<Entry>, n: nat, mode: nat)
    requires n <= |plan|
  {
    Tree(fs, base) && FilesAre(fs, base, plan, n, mode) && DirsAre(fs, base, plan, n) && SameOutside(start, fs, base)
  }

  lemma FilledDirectory(start: Fs, fs: Fs, next: Fs, base: Path, plan: seq<Entry>, n: nat, mode: nat)
    requires n <= |plan| && Filled(start, fs, base, plan, n, mode)
    requires Tree(next, base) && exists path :: OnlyDirectoriesAdded(fs, next, base, path)
    ensures Filled(start, next, base, plan, n, mode)
  {
    DirsStay(fs, next, base, plan, n);
  }

  lemma FilledOther(start: Fs, fs: Fs, base: Path, plan: seq<Entry>, n: nat, mode: nat)
    requires n < |plan| && Filled(start, fs, base, plan, n, mode) && !plan[n].member.kind.File?
    requires plan[n].member.kind.Dir? ==> RealDirs(fs, base + plan[n].path)
    ensures Filled(start, fs, base, plan, n + 1, mode)
  {
  }

  lemma FilledFile(start: Fs, fs: Fs, base: Path, plan: seq<Entry>, n: nat, mode: nat)
    requires n < |plan| && Filled(start, fs, base, plan, n, mode) && plan[n].member.kind.File?
    requires var k := base + plan[n].path; Beneath(base, k) && k !in fs && RealDirs(fs, Parent(k))
    ensures Filled(start, fs[base + plan[n].path := Regular(plan[n].member.content, mode)], base, plan, n + 1, mode)
  {
    var k, node := base + plan[n].path, Regular(plan[n].member.content, mode);
    BelowParent(fs, base, k, node);
    FilesSnoc(fs, base, plan, n, mode);
    DirsStay(fs, fs[k := node], base, plan, n);
  }

  lemma FilesSnoc(fs: Fs, base: Path, plan: seq<Entry>, n: nat, mode: nat)
    requires n < |plan| && FilesAre(fs, base, plan, n, mode) && plan[n].member.kind.File?
    requires base + plan[n].path !in fs && Beneath(base, base + plan[n].path)
    ensures FilesAre(fs[base + plan[n].path := Regular(plan[n].member.content, mode)], base, plan, n + 1, mode)
  {
    var k := base + plan[n].path;
    var next := fs[k := Regular(plan[n].member.content, mode)];
    forall j | j in next && Beneath(base, j) && next[j].Regular?
      ensures exists i | 0 <= i < n + 1 && plan[i].member.kind.File? :: j == base + plan[i].path
    {
      if j != k {
        var i :| 0 <= i < n && plan[i].member.kind.File? && j == base + plan[i].path;
      }
    }
  }

  /** Making the parent directories of a file keeps the staging directory in order. For the name `.`
      they lie above it and exist. */
  lemma ParentsMade(start: Fs, fs: Fs, base: Path, plan: seq<Entry>, n: nat, mode: nat)
    requires n < |plan| && Clean(plan[n].path) && Plain(base) && Filled(start, fs, base, plan, n, mode)
    requires MakeAll(fs, Parent(base + plan[n].path)).Some?
    ensures var up, next := Parent(base + plan[n].path), MakeAll(fs, Parent(base + plan[n].path)).value;
            && Filled(start, next, base, plan, n, mode) && OnlyDirectoriesAdded(fs, next, base, up)
            && (plan[n].path != [] ==> RealDirs(next, up))
  {
    var path := base + plan[n].path;
    CleanIsPlain(base, plan[n].path);
    if plan[n].path == [] {
      assert path == base;
      var up := Parent(base);
      assert forall k | 0 <= k <= |up| :: up[..k] == base[..k];
      RealFound(fs, up);
    } else {
      MakeAllTree(fs, base, Parent(path));
      FilledDirectory(start, fs, MakeAll(fs, Parent(path)).value, base, plan, n, mode);
    }
  }

  lemma FilledStart(start: Fs, base: Path, plan: seq<Entry>, mode: nat)
    requires EmptyStaging(start, base)
    ensures Filled(start, start, base, plan, 0, mode)
  {
  }

  // ---- when the first phase succeeds -------------------------------------------------------

  predicate Stored(e: Entry) {
    e.member.kind.Dir? || e.member.kind.File?
  }

  /** The directories below `base` lie on the way to the first `n` entries. */
  ghost predicate DirsFrom(fs: Fs, base: Path, plan: seq<Entry>, n: nat)
    requires n <= |plan|
  {
    forall k | k in fs && Beneath(base, k) && fs[k].Directory? ::
      exists i | 0 <= i < n && Stored(plan[i]) :: k <= base + plan[i].path
  }

  /** No other of the first `n` stored entries is at, or below, the path of entry `i`. */
  predicate Alone(plan: seq<Entry>, n: nat, i: nat)
    requires n <= |plan| && i < |plan|
  {
    forall j | 0 <= j < n && j != i && Stored(plan[j]) :: !(plan[i].path <= plan[j].path)
  }

  /** The files of the first `n` entries can be read, and nothing else needs their places. */
  predicate Fits(plan: seq<Entry>, readable: Path -> bool, n: nat)
    requires n <= |plan|
  {
    forall i | 0 <= i < n && plan[i].member.kind.File? ::
      plan[i].path != [] && readable(plan[i].path) && Alone(plan, n, i)
  }

  /** What one more entry asks for. */
  predicate FitsNext(plan: seq<Entry>, readable: Path -> bool, n: nat)
    requires n < |plan|
  {
    && (Stored(plan[n]) ==> forall i | 0 <= i < n && plan[i].member.kind.File? :: !(plan[i].path <= plan[n].path))
    && (plan[n].member.kind.File? ==> plan[n].path != [] && readable(plan[n].path) && Alone(plan, n, n))
  }

  lemma FitsSnoc(plan: seq<Entry>, readable: Path -> bool, n: nat)
    requires n < |plan|
    ensures Fits(plan, readable, n + 1) <==> Fits(plan, readable, n) && FitsNext(plan, readable, n)
  {
    forall i | 0 <= i < n && plan[i].member.kind.File?
      ensures Alone(plan, n + 1, i) <==> Alone(plan, n, i) && (Stored(plan[n]) ==> !(plan[i].path <= plan[n].path))
    {
    }
  }

  lemma PrefixRest(base: Path, a: Path, b: Path)
    ensures base + a <= base + b <==> a <= b
  {
    assert (base + b)[|base|..] == b;
    if base + a <= base + b {
      assert a == (base + b)[|base|..|base + a|];
    }
  }

  /** `mkdir` fails only at a regular file on its way. */
  lemma DirBlocked(start: Fs, fs: Fs, base: Path, plan: seq<Entry>, n: nat, mode: nat, path: Path) returns (i: nat)
    requires n <= |plan| && Filled(start, fs, base, plan, n, mode)
    requires Plain(path) && base <= path && MakeAll(fs, path).None?
    ensures i < n && plan[i].member.kind.File? && base + plan[i].path <= path
  {
    if Clear(fs, path) {
      MakeAllClear(fs, path);
    }
    var k := NotClear(fs, base, path);
    i :| 0 <= i < n && plan[i].member.kind.File? && k == base + plan[i].path;
  }

  /** On the way to a stored entry everything is there, and all but a file at its end are directories. */
  lemma OnTheWay(fs: Fs, base: Path, plan: seq<Entry>, n: nat, mode: nat, j: nat, path: Path)
    requires j < n <= |plan| && Stored(plan[j]) && Tree(fs, base)
    requires FilesAre(fs, base, plan, n, mode) && DirsAre(fs, base, plan, n)
    requires Beneath(base, path) && path <= base + plan[j].path
    ensures path in fs && RealDirs(fs, Parent(path))
    ensures (plan[j].member.kind.File? && path == base + plan[j].path) || fs[path].Directory?
  {
    var end := base + plan[j].path;
    if plan[j].member.kind.Dir? {
      DirOnWay(fs, end, path);
    } else if path != end {
      assert path == Parent(end)[..|path|];
      DirOnWay(fs, Parent(end), path);
    }
  }

  /** No file of the plan stands on the way of a new entry, once that way is made. */
  lemma NoFileAbove(fs: Fs, base: Path, plan: seq<Entry>, n: nat, mode: nat, i: nat)
    requires i < n < |plan| && plan[i].member.kind.File? && FilesAre(fs, base, plan, n, mode)
    requires var path := base + plan[n].path; RealDirs(fs, path) || (path !in fs && RealDirs(fs, Parent(path)))
    ensures !(plan[i].path <= plan[n].path)
  {
    var k, path := base + plan[i].path, base + plan[n].path;
    PrefixRest(base, plan[i].path, plan[n].path);
    if k <= path && k != path {
      FileAbove(fs, k, path);
    } else if k == path {
      SelfDirectory(fs, path);
    }
  }

  /** The state after `n` entries, when all went well. */
  ghost predicate Stocked(start: Fs, fs: Fs, base: Path, plan: seq<Entry>, readable: Path -> bool, n: nat, mode: nat)
    requires n <= |plan|
  {
    Filled(start, fs, base, plan, n, mode) && DirsFrom(fs, base, plan, n) && Fits(plan, readable, n)
  }

  lemma DirStocked(start: Fs, fs: Fs, base: Path, plan: seq<Entry>, readable: Path -> bool, n: nat, mode: nat)
    requires n < |plan| && PlainPlan(plan) && Plain(base) && plan[n].member.kind.Dir?
    requires Stocked(start, fs, base, plan, readable, n, mode)
    ensures var made := MakeAll(fs, base + plan[n].path);
            if made.Some? then Stocked(start, made.value, base, plan, readable, n + 1, mode)
            else !Fits(plan, readable, n + 1)
  {
    var path := base + plan[n].path;
    var made := MakeAll(fs, path);
    CleanIsPlain(base, plan[n].path);
    FitsSnoc(plan, readable, n);
    if made.Some? {
      MakeAllTree(fs, base, path);
      FilledDirectory(start, fs, made.value, base, plan, n, mode);
      FilledOther(start, made.value, base, plan, n, mode);
      forall i | 0 <= i < n && plan[i].member.kind.File?
        ensures !(plan[i].path <= plan[n].path)
      {
        NoFileAbove(made.value, base, plan, n, mode, i);
      }
      DirsSnoc(fs, made.value, base, plan, n);
    } else {
      var i := DirBlocked(start, fs, base, plan, n, mode, path);
      PrefixRest(base, plan[i].path, plan[n].path);
    }
  }

  lemma DirsSnoc(a: Fs, b: Fs, base: Path, plan: seq<Entry>, n: nat)
    requires n < |plan| && Stored(plan[n]) && DirsFrom(a, base, plan, n)
    requires forall k | k in b && b[k].Directory? :: (k in a && a[k].Directory?) || k <= base + plan[n].path
    ensures DirsFrom(b, base, plan, n + 1)
  {
    forall k | k in b && Beneath(base, k) && b[k].Directory?
      ensures exists i | 0 <= i < n + 1 && Stored(plan[i]) :: k <= base + plan[i].path
    {
      if !(k <= base + plan[n].path) {
        var i :| 0 <= i < n && Stored(plan[i]) && k <= base + plan[i].path;
      }
    }
  }

  /** A file whose parents cannot be made stands below an earlier file. */
  lemma ParentsBlocked(start: Fs, fs: Fs, base: Path, plan: seq<Entry>, readable: Path -> bool, n: nat, mode: nat)
    requires n < |plan| && PlainPlan(plan) && Plain(base) && plan[n].member.kind.File?
    requires Filled(start, fs, base, plan, n, mode) && MakeAll(fs, Parent(base + plan[n].path)).None?
    ensures !FitsNext(plan, readable, n)
  {
    CleanIsPlain(base, plan[n].path);
    if plan[n].path != [] {
      var i := DirBlocked(start, fs, base, plan, n, mode, Parent(base + plan[n].path));
      PrefixRest(base, plan[i].path, plan[n].path);
    }
  }

  /** A file is made in its place exactly if it is alone there. */
  lemma FileStocked(start: Fs, fs: Fs, mid: Fs, base: Path, plan: seq<Entry>, readable: Path -> bool, n: nat, mode: nat)
    requires n < |plan| && PlainPlan(plan) && Plain(base) && plan[n].member.kind.File? && readable(plan[n].path)
    requires Stocked(start, fs, base, plan, readable, n, mode) && Filled(start, mid, base, plan, n, mode)
    requires OnlyDirectoriesAdded(fs, mid, base, Parent(base + plan[n].path))
    requires plan[n].path != [] ==> RealDirs(mid, Parent(base + plan[n].path))
    ensures var made := MakeNode(mid, base + plan[n].path, Regular(plan[n].member.content, mode));
            if made.Done? then Stocked(start, made.fs, base, plan, readable, n + 1, mode)
            else !FitsNext(plan, readable, n)
  {
    var path, node := base + plan[n].path, Regular(plan[n].member.content, mode);
    CleanIsPlain(base, plan[n].path);
    if MakeNode(mid, path, node).Done? {
      MadeInTree(mid, base, path, node);
      NewFileStocked(start, fs, mid, base, plan, readable, n, mode);
    } else if plan[n].path != [] {
      FreeMade(mid, path, node);
      FileTaken(start, fs, base, plan, n, mode);
    }
  }

  lemma NewFileBelow(start: Fs, mid: Fs, base: Path, plan: seq<Entry>, n: nat, mode: nat, j: nat)
    requires n < |plan| && Filled(start, mid, base, plan, n, mode)
    requires Beneath(base, base + plan[n].path) && base + plan[n].path !in mid
    requires j < n && Stored(plan[j])
    ensures !(plan[n].path <= plan[j].path)
  {
    PrefixRest(base, plan[n].path, plan[j].path);
    if base + plan[n].path <= base + plan[j].path {
      OnTheWay(mid, base, plan, n, mode, j, base + plan[n].path);
    }
  }

  lemma NewFileStocked(start: Fs, fs: Fs, mid: Fs, base: Path, plan: seq<Entry>, readable: Path -> bool, n: nat,
                       mode: nat)
    requires n < |plan| && plan[n].member.kind.File? && readable(plan[n].path)
    requires Stocked(start, fs, base, plan, readable, n, mode) && Filled(start, mid, base, plan, n, mode)
    requires var path := base + plan[n].path;
             && OnlyDirectoriesAdded(fs, mid, base, Parent(path))
             && Beneath(base, path) && path !in mid && RealDirs(mid, Parent(path))
    ensures var node := Regular(plan[n].member.content, mode);
            Stocked(start, mid[base + plan[n].path := node], base, plan, readable, n + 1, mode)
  {
    FilledFile(start, mid, base, plan, n, mode);
    NewFileFits(start, mid, base, plan, readable, n, mode);
    FitsSnoc(plan, readable, n);
    DirsSnoc(fs, mid[base + plan[n].path := Regular(plan[n].member.content, mode)], base, plan, n);
  }

  lemma NewFileFits(start: Fs, mid: Fs, base: Path, plan: seq<Entry>, readable: Path -> bool, n: nat, mode: nat)
    requires n < |plan| && Filled(start, mid, base, plan, n, mode) && plan[n].member.kind.File?
    requires var path := base + plan[n].path;
             Beneath(base, path) && path !in mid && RealDirs(mid, Parent(path)) && readable(plan[n].path)
    ensures FitsNext(plan, readable, n)
  {
    forall i | 0 <= i < n && plan[i].member.kind.File?
      ensures !(plan[i].path <= plan[n].path)
    {
      NoFileAbove(mid, base, plan, n, mode, i);
    }
    forall j | 0 <= j < n && Stored(plan[j])
      ensures !(plan[n].path <= plan[j].path)
    {
      NewFileBelow(start, mid, base, plan, n, mode, j);
    }
  }

  lemma FileTaken(start: Fs, fs: Fs, base: Path, plan: seq<Entry>, n: nat, mode: nat)
    requires n < |plan| && Filled(start, fs, base, plan, n, mode) && DirsFrom(fs, base, plan, n)
    requires Beneath(base, base + plan[n].path) && base + plan[n].path in fs
    ensures !Alone(plan, n, n)
  {
    var path := base + plan[n].path;
    var j :| 0 <= j < n && Stored(plan[j]) && path <= base + plan[j].path;
    PrefixRest(base, plan[n].path, plan[j].path);
  }

  // ---- after the second phase --------------------------------------------------------------

  /** The second phase has made the links of the first `n` entries and touched no regular file. */
  ghost predicate Linked(mid: Fs, fs: Fs, base: Path, plan: seq<Entry>, n: nat)
    requires n <= |plan|
  {
    && Grows(mid, fs)
    && forall i | 0 <= i < n && plan[i].member.kind.Sym? :: LinkAt(fs, base + plan[i].path, plan[i].member.linkname)
  }

  lemma LinkedGrows(mid: Fs, fs: Fs, next: Fs, base: Path, plan: seq<Entry>, n: nat)
    requires n <= |plan| && Linked(mid, fs, base, plan, n) && Grows(fs, next)
    ensures Linked(mid, next, base, plan, n)
  {
    GrowsTransitive(mid, fs, next);
    forall i | 0 <= i < n && plan[i].member.kind.Sym?
      ensures LinkAt(next, base + plan[i].path, plan[i].member.linkname)
    {
      LinkStays(fs, next, base + plan[i].path, plan[i].member.linkname);
    }
  }

  // ---- when the second phase succeeds -------------------------------------------------------

  /** What the first phase leaves of a whole plan. */
  ghost predicate Furnished(fs: Fs, base: Path, plan: seq<Entry>, mode: nat) {
    && Plain(base) && PlainPlan(plan) && Tree(fs, base)
    && FilesAre(fs, base, plan, |plan|, mode) && DirsAre(fs, base, plan, |plan|) && DirsFrom(fs, base, plan, |plan|)
  }

  /** `symlink` takes neither an empty target nor one with a NUL. */
  predicate LinkTarget(target: string) {
    target != "" && !Has(target, '\0')
  }

  /** The link of entry `i` has a target, nothing is stored at or below its path, and no file above. */
  predicate Hangs(plan: seq<Entry>, i: nat)
    requires i < |plan|
  {
    && plan[i].path != [] && LinkTarget(plan[i].member.linkname)
    && forall j | 0 <= j < |plan| && Stored(plan[j]) ::
         !(plan[i].path <= plan[j].path) && (plan[j].member.kind.File? ==> !(plan[j].path <= plan[i].path))
  }

  predicate Placeable(plan: seq<Entry>, n: nat)
    requires n <= |plan|
  {
    forall i | 0 <= i < n && plan[i].member.kind.Sym? :: Hangs(plan, i)
  }

  /** No link is at, or below, the path of another. */
  predicate Apart(plan: seq<Entry>) {
    forall i, j | 0 <= i < |plan| && 0 <= j < |plan| && i != j
                  && plan[i].member.kind.Sym? && plan[j].member.kind.Sym? ::
      !(plan[i].path <= plan[j].path)
  }

  function PlacedLink(fs: Fs, path: Path, target: string): Option<Fs> {
    var up := MakeAll(fs, Parent(path));
    if up.None? || !LinkTarget(target) then None
    else
      var made := MakeNode(up.value, path, Link(target));
      if made.Done? then Some(made.fs) else None
  }

  /** At a link's path, or a directory on the way to it. */
  predicate OnLink(fs: Fs, k: Path, path: Path)
    requires k in fs
  {
    k == path || (k <= path && fs[k].Directory?)
  }

  /** What is new lies on the way to the first `n` links, or is one of them. */
  ghost predicate NewFromLinks(mid: Fs, fs: Fs, base: Path, plan: seq<Entry>, n: nat)
    requires n <= |plan|
  {
    forall k | k in fs && k !in mid ::
      exists i | 0 <= i < n && plan[i].member.kind.Sym? :: OnLink(fs, k, base + plan[i].path)
  }

  /** A link that could be made, whatever links there are already, hangs free. */
  lemma PlacedHangs(mid: Fs, fs: Fs, base: Path, plan: seq<Entry>, n: nat, mode: nat)
    requires Furnished(mid, base, plan, mode) && Grows(mid, fs) && n < |plan|
    requires PlacedLink(fs, base + plan[n].path, plan[n].member.linkname).Some?
    ensures Hangs(plan, n)
  {
    var path := base + plan[n].path;
    var up := MakeAll(fs, Parent(path)).value;
    MakeAllGrows(fs, Parent(path));
    CleanIsPlain(base, plan[n].path);
    if plan[n].path == [] {
      assert path == base;
      KeepsDirs(mid, up, base);
      RealFound(up, base);
    } else {
      forall j | 0 <= j < |plan| && Stored(plan[j])
        ensures !(plan[n].path <= plan[j].path) && (plan[j].member.kind.File? ==> !(plan[j].path <= plan[n].path))
      {
        PlacedClear(mid, fs, up, base, plan, n, mode, j);
      }
    }
  }

  lemma PlacedClear(mid: Fs, fs: Fs, up: Fs, base: Path, plan: seq<Entry>, n: nat, mode: nat, j: nat)
    requires Furnished(mid, base, plan, mode) && Grows(mid, fs) && Grows(fs, up) && n < |plan| && plan[n].path != []
    requires var path := base + plan[n].path;
             MakeAll(fs, Parent(path)) == Some(up) && MakeNode(up, path, Link(plan[n].member.linkname)).Done?
    requires j < |plan| && Stored(plan[j])
    ensures !(plan[n].path <= plan[j].path) && (plan[j].member.kind.File? ==> !(plan[j].path <= plan[n].path))
  {
    var path, other := base + plan[n].path, base + plan[j].path;
    CleanIsPlain(base, plan[n].path);
    PrefixRest(base, plan[n].path, plan[j].path);
    PrefixRest(base, plan[j].path, plan[n].path);
    if path <= other {
      OnTheWay(mid, base, plan, |plan|, mode, j, path);
      KeepsDirs(mid, up, Parent(path));
      FreeMade(up, path, Link(plan[n].member.linkname));
    } else if plan[j].member.kind.File? && other <= path {
      KeepsDirs(mid, fs, Parent(other));
      FileStops(fs, Parent(path), other);
    }
  }

  /** Only directories are on the way of a link that hangs free and apart. */
  lemma HangsClear(mid: Fs, fs: Fs, base: Path, plan: seq<Entry>, n: nat, mode: nat, k: Path)
    requires Furnished(mid, base, plan, mode) && Grows(mid, fs) && n < |plan| && plan[n].member.kind.Sym?
    requires NewFromLinks(mid, fs, base, plan, n) && Apart(plan) && Hangs(plan, n)
    requires k <= base + plan[n].path && k in fs && k != []
    ensures fs[k].Directory? && k != base + plan[n].path
  {
    var path := base + plan[n].path;
    if k !in mid {
      var i :| 0 <= i < n && plan[i].member.kind.Sym? && OnLink(fs, k, base + plan[i].path);
      PrefixRest(base, plan[i].path, plan[n].path);
      PrefixRest(base, plan[n].path, plan[i].path);
    } else if !Beneath(base, k) {
      DirOnWay(mid, base, k);
    } else if mid[k].Regular? {
      var j :| 0 <= j < |plan| && plan[j].member.kind.File? && k == base + plan[j].path;
      PrefixRest(base, plan[j].path, plan[n].path);
    } else if k == path {
      var j :| 0 <= j < |plan| && Stored(plan[j]) && k <= base + plan[j].path;
      PrefixRest(base, plan[n].path, plan[j].path);
    }
  }

  /** On a clear way a link is made, and no more than directories on that way. */
  lemma ClearPlaced(fs: Fs, path: Path, target: string)
    requires Plain(path) && Plain(Parent(path)) && path != [] && path !in fs && Clear(fs, Parent(path))
             && LinkTarget(target)
    ensures var placed := PlacedLink(fs, path, target);
            placed.Some? && forall k | k in placed.value ::
              (k in fs && placed.value[k] == fs[k]) || OnLink(placed.value, k, path)
  {
    MakeAllClear(fs, Parent(path));
    var up := MakeAll(fs, Parent(path)).value;
    FreeMade(up, path, Link(target));
  }

  lemma WayClear(mid: Fs, fs: Fs, base: Path, plan: seq<Entry>, n: nat, mode: nat)
    requires Furnished(mid, base, plan, mode) && Grows(mid, fs) && n < |plan| && plan[n].member.kind.Sym?
    requires NewFromLinks(mid, fs, base, plan, n) && Apart(plan) && Hangs(plan, n)
    ensures Clear(fs, Parent(base + plan[n].path)) && base + plan[n].path !in fs
  {
    var path := base + plan[n].path;
    forall m | 0 < m <= |Parent(path)| && Parent(path)[..m] in fs
      ensures fs[Parent(path)[..m]].Directory?
    {
      HangsClear(mid, fs, base, plan, n, mode, Parent(path)[..m]);
    }
    if path in fs {
      HangsClear(mid, fs, base, plan, n, mode, path);
    }
  }

  lemma HangsPlaced(mid: Fs, fs: Fs, base: Path, plan: seq<Entry>, n: nat, mode: nat)
    requires Furnished(mid, base, plan, mode) && Grows(mid, fs) && n < |plan| && plan[n].member.kind.Sym?
    requires NewFromLinks(mid, fs, base, plan, n) && Apart(plan) && Hangs(plan, n)
    ensures var placed := PlacedLink(fs, base + plan[n].path, plan[n].member.linkname);
            placed.Some? && NewFromLinks(mid, placed.value, base, plan, n + 1)
  {
    var path := base + plan[n].path;
    CleanIsPlain(base, plan[n].path);
    WayClear(mid, fs, base, plan, n, mode);
    ClearPlaced(fs, path, plan[n].member.linkname);
    LinksSnoc(mid, fs, PlacedLink(fs, path, plan[n].member.linkname).value, base, plan, n);
  }

  lemma LinksSnoc(mid: Fs, fs: Fs, next: Fs, base: Path, plan: seq<Entry>, n: nat)
    requires n < |plan| && plan[n].member.kind.Sym? && NewFromLinks(mid, fs, base, plan, n)
    requires forall k | k in next :: (k in fs && next[k] == fs[k]) || OnLink(next, k, base + plan[n].path)
    ensures NewFromLinks(mid, next, base, plan, n + 1)
  {
    forall k | k in next && k !in mid
      ensures exists i | 0 <= i < n + 1 && plan[i].member.kind.Sym? :: OnLink(next, k, base + plan[i].path)
    {
      if !OnLink(next, k, base + plan[n].path) {
        var i :| 0 <= i < n && plan[i].member.kind.Sym? && OnLink(fs, k, base + plan[i].path);
        assert OnLink(next, k, base + plan[i].path);
      }
    }
  }

  lemma LinkOutcome(mid: Fs, fs: Fs, base: Path, plan: seq<Entry>, n: nat, mode: nat)
    requires Grows(mid, fs) && n < |plan| && plan[n].member.kind.Sym?
    ensures var placed := PlacedLink(fs, base + plan[n].path, plan[n].member.linkname);
            && (Furnished(mid, base, plan, mode) && placed.Some? ==> Hangs(plan, n))
            && (Furnished(mid, base, plan, mode) && Apart(plan)
                && NewFromLinks(mid, fs, base, plan, n) && Hangs(plan, n) ==>
                  placed.Some? && NewFromLinks(mid, placed.value, base, plan, n + 1))
  {
    var placed := PlacedLink(fs, base + plan[n].path, plan[n].member.linkname);
    if Furnished(mid, base, plan, mode) {
      if placed.Some? {
        PlacedHangs(mid, fs, base, plan, n, mode);
      }
      if Apart(plan) && NewFromLinks(mid, fs, base, plan, n) && Hangs(plan, n) {
        HangsPlaced(mid, fs, base, plan, n, mode);
      }
    }
  }

  function WithLink(fs: Fs, path: Path, target: string): Fs {
    var placed := PlacedLink(fs, path, target);
    if placed.Some? then placed.value else fs
  }

  /** From entry `n` on every link has a target, and its path opens in the tree with the links before it. */
  ghost predicate LinksOpen(fs: Fs, base: Path, plan: seq<Entry>, n: nat)
    requires n <= |plan|
    decreases |plan| - n
  {
    if n == |plan| then true
    else if !plan[n].member.kind.Sym? then LinksOpen(fs, base, plan, n + 1)
    else
      var path, target := base + plan[n].path, plan[n].member.linkname;
      target != "" && !Has(target, '\0') && Opens(fs, path) && LinksOpen(WithLink(fs, path, target), base, plan, n + 1)
  }

  lemma PlacedExactly(fs: Fs, path: Path, target: string)
    requires Closed(fs) && Plain(path)
    ensures PlacedLink(fs, path, target).Some? <==> LinkTarget(target) && Opens(fs, path)
    ensures PlacedLink(fs, path, target).Some? ==> Closed(PlacedLink(fs, path, target).value)
  {
    NodeExactly(fs, path, Link(target));
    if PlacedLink(fs, path, target).Some? {
      MakeAllClosed(fs, Parent(path));
      MakeNodeClosed(MakeAll(fs, Parent(path)).value, path, Link(target));
    }
  }

  /** One more link. */
  lemma OpenStep(fs: Fs, base: Path, plan: seq<Entry>, n: nat)
    requires Closed(fs) && Plain(base) && PlainPlan(plan) && n < |plan| && plan[n].member.kind.Sym?
    ensures var placed := PlacedLink(fs, base + plan[n].path, plan[n].member.linkname);
            && (LinksOpen(fs, base, plan, n) <==> placed.Some? && LinksOpen(placed.value, base, plan, n + 1))
            && (placed.Some? ==> Closed(placed.value))
  {
    CleanIsPlain(base, plan[n].path);
    PlacedExactly(fs, base + plan[n].path, plan[n].member.linkname);
  }

  /** How the links of the first `n` entries bear on whether all can be made. */
  ghost predicate SoFar(start: Fs, fs: Fs, base: Path, plan: seq<Entry>, n: nat, mode: nat)
    requires n <= |plan|
  {
    && Grows(start, fs)
    && (Closed(start) && Plain(base) && PlainPlan(plan) ==>
          Closed(fs) && (LinksOpen(start, base, plan, 0) <==> LinksOpen(fs, base, plan, n)))
    && (Furnished(start, base, plan, mode) ==> Placeable(plan, n))
    && (Furnished(start, base, plan, mode) && Apart(plan) ==> NewFromLinks(start, fs, base, plan, n))
  }

  lemma SoFarOther(start: Fs, fs: Fs, base: Path, plan: seq<Entry>, n: nat, mode: nat)
    requires n < |plan| && SoFar(start, fs, base, plan, n, mode) && !plan[n].member.kind.Sym?
    ensures SoFar(start, fs, base, plan, n + 1, mode)
  {
    if Furnished(start, base, plan, mode) && Apart(plan) {
      forall k | k in fs && k !in start
        ensures exists i | 0 <= i < n + 1 && plan[i].member.kind.Sym? :: OnLink(fs, k, base + plan[i].path)
      {
        var i :| 0 <= i < n && plan[i].member.kind.Sym? && OnLink(fs, k, base + plan[i].path);
      }
    }
  }

  lemma SoFarLink(start: Fs, fs: Fs, next: Fs, base: Path, plan: seq<Entry>, n: nat, mode: nat)
    requires n < |plan| && SoFar(start, fs, base, plan, n, mode) && plan[n].member.kind.Sym?
    requires PlacedLink(fs, base + plan[n].path, plan[n].member.linkname) == Some(next) && Grows(fs, next)
    ensures SoFar(start, next, base, plan, n + 1, mode)
  {
    GrowsTransitive(start, fs, next);
    LinkOutcome(start, fs, base, plan, n, mode);
    if Closed(start) && Plain(base) && PlainPlan(plan) {
      OpenStep(fs, base, plan, n);
    }
  }

  lemma SoFarFails(start: Fs, fs: Fs, base: Path, plan: seq<Entry>, n: nat, mode: nat)
    requires n < |plan| && SoFar(start, fs, base, plan, n, mode) && plan[n].member.kind.Sym?
    requires PlacedLink(fs, base + plan[n].path, plan[n].member.linkname).None?
    ensures Closed(start) && Plain(base) && PlainPlan(plan) ==> !LinksOpen(start, base, plan, 0)
    ensures Furnished(start, base, plan, mode) && Apart(plan) ==> !Placeable(plan, |plan|)
  {
    LinkOutcome(start, fs, base, plan, n, mode);
    if Closed(start) && Plain(base) && PlainPlan(plan) {
      OpenStep(fs, base, plan, n);
    }
  }

  /** The first phase leaves a file system. */
  lemma FilledClosed(start: Fs, fs: Fs, base: Path, plan: seq<Entry>, mode: nat)
    requires Closed(start) && Filled(start, fs, base, plan, |plan|, mode)
    ensures Closed(fs)
  {
    forall k | k in fs && k != []
      ensures IsDirectory(fs, Parent(k))
    {
      if Beneath(base, k) {
        SelfDirectory(fs, Parent(k));
      } else {
        assert !Beneath(base, Parent(k));
        assert IsDirectory(start, Parent(k));
      }
    }
  }

  /** And the same one whatever the order of its steps: the plan determines it. */
  lemma FurnishedOnce(start: Fs, a: Fs, b: Fs, base: Path, plan: seq<Entry>, mode: nat)
    requires Furnished(a, base, plan, mode) && Furnished(b, base, plan, mode)
    requires SameOutside(start, a, base) && SameOutside(start, b, base)
    ensures a == b
  {
    FurnishedWithin(start, a, b, base, plan, mode);
    FurnishedWithin(start, b, a, base, plan, mode);
  }

  lemma FurnishedWithin(start: Fs, a: Fs, b: Fs, base: Path, plan: seq<Entry>, mode: nat)
    requires Furnished(a, base, plan, mode) && Furnished(b, base, plan, mode)
    requires SameOutside(start, a, base) && SameOutside(start, b, base)
    ensures forall k | k in a :: k in b && b[k] == a[k]
  {
    forall k | k in a
      ensures k in b && b[k] == a[k]
    {
      if Beneath(base, k) {
        FurnishedNode(a, b, base, plan, mode, k);
      }
    }
  }

  lemma FurnishedNode(a: Fs, b: Fs, base: Path, plan: seq<Entry>, mode: nat, k: Path)
    requires Furnished(a, base, plan, mode) && Furnished(b, base, plan, mode)
    requires Beneath(base, k) && k in a
    ensures k in b && b[k] == a[k]
  {
    if a[k].Regular? {
      var i :| 0 <= i < |plan| && plan[i].member.kind.File? && k == base + plan[i].path;
    } else {
      var i :| 0 <= i < |plan| && Stored(plan[i]) && k <= base + plan[i].path;
      OnTheWay(a, base, plan, |plan|, mode, i, k);
      OnTheWay(b, base, plan, |plan|, mode, i, k);
    }
  }

  // ---- digests and modes --------------------------------------------------------------------

  function EntryName(e: Entry): string {
    Posix(e.path)
  }

  /** What an accepted plan offers the later phases. */
  ghost predicate Ready(plan: seq<Entry>, manifest: Manifest) {
    && PlainPlan(plan)
    && (forall i, j | 0 <= i < |plan| && 0 <= j < |plan| && i != j :: EntryName(plan[i]) != EntryName(plan[j]))
    && (forall name | name in manifest.files ::
          exists i | 0 <= i < |plan| && plan[i].member.kind in {File, Sym} :: EntryName(plan[i]) == name)
    && (forall i | 0 <= i < |plan| && plan[i].member.kind.File? :: EntryName(plan[i]) in manifest.files)
    && manifest.digests.Keys <= manifest.files
  }

  function ModeOf(name: string, pinned: set<string>, plain: set<string>, created: nat): nat {
    if name in pinned then PINNED_MODE else if name in plain then PLAIN_MODE else created
  }

  /** Modes have been set for the `pinned` and `plain` names, and nothing else differs from `linked`. */
  ghost predicate Moded(linked: Fs, fs: Fs, base: Path, plan: seq<Entry>, pinned: set<string>, plain: set<string>,
                        created: nat) {
    && fs.Keys == linked.Keys
    && (forall k | k in fs && !(Beneath(base, k) && linked[k].Regular?) :: fs[k] == linked[k])
    && (forall k | k in fs && linked[k].Regular? :: fs[k].Regular?)
    && (forall i | 0 <= i < |plan| && plan[i].member.kind.File? ::
          var k := base + plan[i].path;
          k in fs && fs[k] == Regular(plan[i].member.content, ModeOf(EntryName(plan[i]), pinned, plain, created)))
  }

  /** The state the third phase starts from. */
  ghost predicate Populated(linked: Fs, base: Path, plan: seq<Entry>, manifest: Manifest) {
    && Plain(base) && Ready(plan, manifest)
    && (forall i | 0 <= i < |plan| && plan[i].member.kind.File? ::
          var k := base + plan[i].path;
          Beneath(base, k) && RealDirs(linked, Parent(k)) && k in linked && linked[k].Regular?)
    && (forall i | 0 <= i < |plan| && plan[i].member.kind.Sym? ::
          LinkAt(linked, base + plan[i].path, plan[i].member.linkname))
  }

  /** The path of a listed name, and what is found there. */
  lemma NameFound(linked: Fs, fs: Fs, base: Path, plan: seq<Entry>, manifest: Manifest, pinned: set<string>,
                  plain: set<string>, created: nat, name: string) returns (i: nat)
    requires Populated(linked, base, plan, manifest) && Moded(linked, fs, base, plan, pinned, plain, created)
    requires name in manifest.files
    ensures i < |plan| && EntryName(plan[i]) == name && PathParts(name) == plan[i].path
    ensures plan[i].member.kind.File? || plan[i].member.kind.Sym?
    ensures var path := base + plan[i].path;
            if plan[i].member.kind.File?
            then IsFile(fs, path) && !IsSymlink(fs, path) && Locate(fs, path, true) == At(path)
            else IsSymlink(fs, path)
  {
    i :| 0 <= i < |plan| && plan[i].member.kind in {File, Sym} && EntryName(plan[i]) == name;
    PosixReads(plan[i].path);
    var path := base + plan[i].path;
    if plan[i].member.kind.File? {
      CleanIsPlain(base, plan[i].path);
      KeepsDirs(linked, fs, Parent(path));
      RegularFound(fs, path);
    } else {
      LinkStays(linked, fs, path, plan[i].member.linkname);
    }
  }

  lemma SetPinned(linked: Fs, fs: Fs, base: Path, plan: seq<Entry>, manifest: Manifest, pinned: set<string>,
                  created: nat, i: nat)
    requires Populated(linked, base, plan, manifest) && Moded(linked, fs, base, plan, pinned, {}, created)
    requires i < |plan| && plan[i].member.kind.File?
    ensures Moded(linked, fs[base + plan[i].path := Regular(plan[i].member.content, PINNED_MODE)], base, plan,
                  pinned + {EntryName(plan[i])}, {}, created)
  {
    DistinctPaths(base, plan, manifest, i);
  }

  lemma SetPlain(linked: Fs, fs: Fs, base: Path, plan: seq<Entry>, manifest: Manifest, pinned: set<string>,
                 plain: set<string>, created: nat, i: nat)
    requires Populated(linked, base, plan, manifest) && Moded(linked, fs, base, plan, pinned, plain, created)
    requires i < |plan| && plan[i].member.kind.File? && EntryName(plan[i]) !in pinned
    ensures Moded(linked, fs[base + plan[i].path := Regular(plan[i].member.content, PLAIN_MODE)], base, plan,
                  pinned, plain + {EntryName(plan[i])}, created)
  {
    DistinctPaths(base, plan, manifest, i);
  }

  lemma DistinctPaths(base: Path, plan: seq<Entry>, manifest: Manifest, i: nat)
    requires Ready(plan, manifest) && i < |plan|
    ensures forall j | 0 <= j < |plan| && j != i :: base + plan[j].path != base + plan[i].path
  {
    forall j | 0 <= j < |plan| && j != i
      ensures base + plan[j].path != base + plan[i].path
    {
      if base + plan[j].path == base + plan[i].path {
        SameRest(base, plan[j].path, plan[i].path);
      }
    }
  }

  lemma SameRest(base: Path, a: Path, b: Path)
    requires base + a == base + b
    ensures a == b
  {
    assert a == (base + a)[|base|..] && b == (base + b)[|base|..];
  }

  /** No regular file outside the staging directory is added, changed or removed. */
  predicate OutsideFilesKept(a: Fs, b: Fs, base: Path) {
    && (forall k | k in a && !Beneath(base, k) && a[k].Regular? :: k in b && b[k] == a[k])
    && (forall k | k in b && !Beneath(base, k) && b[k].Regular? :: k in a && a[k] == b[k])
  }

  /** What a successful extraction leaves of the plan's entries. */
  ghost predicate Extracted(fs: Fs, base: Path, plan: seq<Entry>, manifest: Manifest, digest: string -> string) {
    && (forall i | 0 <= i < |plan| && plan[i].member.kind.File? ::
          var k, name := base + plan[i].path, EntryName(plan[i]);
          && RealDirs(fs, Parent(k))
          && k in fs
          && fs[k] == Regular(plan[i].member.content, if name in manifest.digests then 493 else 384)
          && (name in manifest.digests ==> Lower(digest(plan[i].member.content)) == Lower(manifest.digests[name])))
    && (forall k | k in fs && Beneath(base, k) && fs[k].Regular? ::
          exists i | 0 <= i < |plan| && plan[i].member.kind.File? :: k == base + plan[i].path)
    && DirsAre(fs, base, plan, |plan|)
    && (forall i | 0 <= i < |plan| && plan[i].member.kind.Sym? ::
          LinkAt(fs, base + plan[i].path, plan[i].member.linkname))
    && (forall name | name in manifest.digests ::
          exists i | 0 <= i < |plan| && plan[i].member.kind.File? :: EntryName(plan[i]) == name)
  }

  lemma AcceptedIsReady(plan: seq<Entry>, members: seq<Member>, manifest: Manifest, limit: int)
    requires Plans(plan, members) && Acceptable(members, manifest, limit)
    ensures Ready(plan, manifest)
  {
    forall i | 0 <= i < |plan|
      ensures Clean(plan[i].path) && EntryName(plan[i]) == NameOf(members[i])
    {
      assert Sound(members[i], manifest);
      NormalisedIsClean(members[i].name);
    }
    forall i, j | 0 <= i < |plan| && 0 <= j < |plan| && i != j
      ensures EntryName(plan[i]) != EntryName(plan[j])
    {
      OwnPlaces(members, i, j);
      if EntryName(plan[i]) == EntryName(plan[j]) {
        PosixInjective(plan[i].path, plan[j].path);
      }
    }
    forall name | name in manifest.files
      ensures exists i | 0 <= i < |plan| && plan[i].member.kind in {File, Sym} :: EntryName(plan[i]) == name
    {
      var i :| 0 <= i < |members| && members[i].kind in {File, Sym} && NameOf(members[i]) == name;
      assert plan[i].member.kind in {File, Sym} && EntryName(plan[i]) == name;
    }
  }

  lemma OwnPlaces(members: seq<Member>, i: nat, j: nat)
    requires i < |members| && j < |members| && i != j && Unique(members)
    ensures PathOf(members[i]) != PathOf(members[j])
  {
  }

  lemma FilledPopulates(start: Fs, mid: Fs, linked: Fs, base: Path, plan: seq<Entry>, manifest: Manifest, created: nat)
    requires Plain(base) && Ready(plan, manifest)
    requires Filled(start, mid, base, plan, |plan|, created) && Linked(mid, linked, base, plan, |plan|)
    ensures Populated(linked, base, plan, manifest) && Moded(linked, linked, base, plan, {}, {}, created)
  {
    forall i | 0 <= i < |plan| && plan[i].member.kind.File?
      ensures var k := base + plan[i].path;
              Beneath(base, k) && RealDirs(linked, Parent(k)) && k in linked && linked[k].Regular?
    {
      var k := base + plan[i].path;
      KeepsDirs(mid, linked, Parent(k));
    }
  }

  /** The name belongs to a regular file whose content has the pinned digest. */
  ghost predicate Pinned(plan: seq<Entry>, manifest: Manifest, digest: string -> string, name: string)
    requires name in manifest.digests
  {
    exists i | 0 <= i < |plan| && plan[i].member.kind.File? ::
      EntryName(plan[i]) == name && Lower(digest(plan[i].member.content)) == Lower(manifest.digests[name])
  }

  /** Names are unique, so the entry with the name decides. */
  lemma PinnedEntry(plan: seq<Entry>, manifest: Manifest, digest: string -> string, name: string, i: nat)
    requires Ready(plan, manifest) && name in manifest.digests && i < |plan| && EntryName(plan[i]) == name
    ensures Pinned(plan, manifest, digest, name)
            <==> plan[i].member.kind.File? && Lower(digest(plan[i].member.content)) == Lower(manifest.digests[name])
  {
  }

  ghost predicate AllPinned(plan: seq<Entry>, manifest: Manifest, digest: string -> string, names: set<string>) {
    forall name | name in names :: name in manifest.digests && Pinned(plan, manifest, digest, name)
  }

  /** The names in `done` have passed and have their mode. */
  ghost predicate Verified(linked: Fs, fs: Fs, base: Path, plan: seq<Entry>, manifest: Manifest,
                           digest: string -> string, done: set<string>, created: nat) {
    && Populated(linked, base, plan, manifest)
    && Moded(linked, fs, base, plan, done, {}, created)
    && AllPinned(plan, manifest, digest, done)
  }

  lemma AllVerified(linked: Fs, fs: Fs, base: Path, plan: seq<Entry>, manifest: Manifest,
                    digest: string -> string, done: set<string>, created: nat)
    requires Verified(linked, fs, base, plan, manifest, digest, done, created) && manifest.digests.Keys <= done
    ensures done == manifest.digests.Keys
    ensures Populated(linked, base, plan, manifest)
    ensures Moded(linked, fs, base, plan, manifest.digests.Keys, {}, created)
    ensures AllPinned(plan, manifest, digest, manifest.digests.Keys)
  {
    assert done == manifest.digests.Keys;
  }

  lemma GrowthOutside(start: Fs, mid: Fs, fs: Fs, base: Path)
    requires SameOutside(start, mid, base) && Grows(mid, fs)
    ensures OutsideFilesKept(start, fs, base)
  {
  }

  lemma ModesOutside(start: Fs, linked: Fs, fs: Fs, base: Path, plan: seq<Entry>, pinned: set<string>,
                     plain: set<string>, created: nat)
    requires OutsideFilesKept(start, linked, base) && Moded(linked, fs, base, plan, pinned, plain, created)
    ensures OutsideFilesKept(start, fs, base)
  {
  }

  lemma Concluded(start: Fs, mid: Fs, linked: Fs, fs: Fs, base: Path, plan: seq<Entry>, manifest: Manifest,
                  digest: string -> string, created: nat)
    requires Filled(start, mid, base, plan, |plan|, created) && Linked(mid, linked, base, plan, |plan|)
    requires Populated(linked, base, plan, manifest)
    requires Moded(linked, fs, base, plan, manifest.digests.Keys, manifest.files, created)
    requires AllPinned(plan, manifest, digest, manifest.digests.Keys)
    ensures Extracted(fs, base, plan, manifest, digest)
  {
    DirsStay(mid, linked, base, plan, |plan|);
    DirsStay(linked, fs, base, plan, |plan|);
    forall i | 0 <= i < |plan| && plan[i].member.kind.File?
      ensures var k, name := base + plan[i].path, EntryName(plan[i]);
              && RealDirs(fs, Parent(k))
              && (name in manifest.digests ==> Lower(digest(plan[i].member.content)) == Lower(manifest.digests[name]))
    {
      KeepsDirs(linked, fs, Parent(base + plan[i].path));
    }
    forall i | 0 <= i < |plan| && plan[i].member.kind.Sym?
      ensures LinkAt(fs, base + plan[i].path, plan[i].member.linkname)
    {
      LinkStays(linked, fs, base + plan[i].path, plan[i].member.linkname);
    }
  }

  /** A pinned name, or one of a link, needs no mode. */
  lemma SkipName(linked: Fs, fs: Fs, base: Path, plan: seq<Entry>, manifest: Manifest, plain: set<string>,
                 created: nat, i: nat)
    requires Populated(linked, base, plan, manifest)
    requires Moded(linked, fs, base, plan, manifest.digests.Keys, plain, created)
    requires i < |plan| && (EntryName(plan[i]) in manifest.digests || !plan[i].member.kind.File?)
    ensures Moded(linked, fs, base, plan, manifest.digests.Keys, plain + {EntryName(plan[i])}, created)
    ensures Moded(linked, fs, base, plan, manifest.digests.Keys, plain, created)
  {
  }

  /** Files can be read and have their places, links hang free, and every pinned digest is right. */
  ghost predicate Extractable(plan: seq<Entry>, manifest: Manifest, digest: string -> string, readable: Path -> bool) {
    Fits(plan, readable, |plan|) && Placeable(plan, |plan|) && AllPinned(plan, manifest, digest, manifest.digests.Keys)
  }

  /** The same with links below links: their paths open one after the other, from the state `mid` that the
      first phase leaves. */
  ghost predicate ExtractableVia(mid: Fs, base: Path, plan: seq<Entry>, manifest: Manifest,
                                 digest: string -> string, readable: Path -> bool) {
    && LinksOpen(mid, base, plan, 0)
    && (forall i | 0 <= i < |plan| && plan[i].member.kind == File ::
          && plan[i].path != [] && readable(plan[i].path)
          && forall j | 0 <= j < |plan| && j != i && plan[j].member.kind in {File, Dir} ::
               !(plan[i].path <= plan[j].path))
    && (forall name | name in manifest.digests ::
          exists i | 0 <= i < |plan| && plan[i].member.kind == File ::
            && Posix(plan[i].path) == name
            && Lower(digest(plan[i].member.content)) == Lower(manifest.digests[name]))
  }

  lemma ViaExactly(mid: Fs, base: Path, plan: seq<Entry>, manifest: Manifest, digest: string -> string,
                   readable: Path -> bool)
    ensures ExtractableVia(mid, base, plan, manifest, digest, readable)
       <==> && Fits(plan, readable, |plan|) && LinksOpen(mid, base, plan, 0)
            && AllPinned(plan, manifest, digest, manifest.digests.Keys)
  {
    forall i | 0 <= i < |plan|
      ensures Alone(plan, |plan|, i)
         <==> forall j | 0 <= j < |plan| && j != i && plan[j].member.kind in {File, Dir} ::
                !(plan[i].path <= plan[j].path)
    {
    }
    PinnedExactly(plan, manifest, digest);
  }

  lemma PinnedExactly(plan: seq<Entry>, manifest: Manifest, digest: string -> string)
    ensures AllPinned(plan, manifest, digest, manifest.digests.Keys)
       <==> forall name | name in manifest.digests ::
              exists i | 0 <= i < |plan| && plan[i].member.kind == File ::
                && Posix(plan[i].path) == name
                && Lower(digest(plan[i].member.content)) == Lower(manifest.digests[name])
  {
    forall name | name in manifest.digests
      ensures Pinned(plan, manifest, digest, name)
         <==> exists i | 0 <= i < |plan| && plan[i].member.kind == File ::
                && Posix(plan[i].path) == name
                && Lower(digest(plan[i].member.content)) == Lower(manifest.digests[name])
    {
      if Pinned(plan, manifest, digest, name) {
        var i :| 0 <= i < |plan| && plan[i].member.kind.File? && EntryName(plan[i]) == name
                 && Lower(digest(plan[i].member.content)) == Lower(manifest.digests[name]);
        assert plan[i].member.kind == File && Posix(plan[i].path) == name;
      }
      if i :| 0 <= i < |plan| && plan[i].member.kind == File && Posix(plan[i].path) == name
              && Lower(digest(plan[i].member.content)) == Lower(manifest.digests[name]) {
        assert plan[i].member.kind.File? && EntryName(plan[i]) == name;
      }
    }
  }

  class Staging {
    var fs: Fs

    method MakeDirectories(path: Path) returns (ok: bool)
      modifies this
      ensures ok == MakeAll(old(fs), path).Some?
      ensures fs == if ok then MakeAll(old(fs), path).value else old(fs)
    {
      var made := MakeAll(fs, path);
      ok := made.Some?;
      if ok {
        fs := made.value;
      }
    }

    method MakeOne(path: Path, node: Node) returns (ok: bool)
      modifies this
      ensures ok == MakeNode(old(fs), path, node).Done?
      ensures fs == if ok then MakeNode(old(fs), path, node).fs else old(fs)
    {
      var made := MakeNode(fs, path, node);
      ok := made.Done?;
      if ok {
        fs := made.fs;
      }
    }

    /** One entry of the first phase. `readable` tells whether the archive yields the file's bytes. */
    method PlaceEntry(base: Path, plan: seq<Entry>, n: nat, readable: Path -> bool, mode: nat, ghost start: Fs)
      returns (ok: bool)
      requires n < |plan| && PlainPlan(plan) && Plain(base)
      requires Stocked(start, fs, base, plan, readable, n, mode)
      modifies this
      ensures Tree(fs, base) && SameOutside(start, fs, base)
      ensures if ok then Stocked(start, fs, base, plan, readable, n + 1, mode) else !Fits(plan, readable, n + 1)
    {
      FitsSnoc(plan, readable, n);
      ok := true;
      if plan[n].member.kind.Dir? {
        DirStocked(start, fs, base, plan, readable, n, mode);
        ok := MakeDirectories(base + plan[n].path);
      } else if plan[n].member.kind.File? {
        ok := PlaceFile(base, plan, n, readable, mode, start);
      } else {
        FilledOther(start, fs, base, plan, n, mode);
      }
    }

    method PlaceFile(base: Path, plan: seq<Entry>, n: nat, readable: Path -> bool, mode: nat, ghost start: Fs)
      returns (ok: bool)
      requires n < |plan| && PlainPlan(plan) && Plain(base) && plan[n].member.kind.File?
      requires Stocked(start, fs, base, plan, readable, n, mode)
      modifies this
      ensures Tree(fs, base) && SameOutside(start, fs, base)
      ensures if ok then Stocked(start, fs, base, plan, readable, n + 1, mode) else !FitsNext(plan, readable, n)
    {
      var member, path := plan[n].member, base + plan[n].path;
      ghost var before := fs;
      ok := MakeDirectories(Parent(path));
      if !ok {
        ParentsBlocked(start, before, base, plan, readable, n, mode);
        return;
      }
      ParentsMade(start, before, base, plan, n, mode);
      if !readable(plan[n].path) {
        return false;
      }
      FileStocked(start, before, fs, base, plan, readable, n, mode);
      ok := MakeOne(path, Regular(member.content, mode));
    }

    /** Directories and files. It succeeds exactly if every file can be read and has its place for itself. */
    method FillStaging(base: Path, plan: seq<Entry>, readable: Path -> bool, created: nat) returns (ok: bool)
      requires EmptyStaging(fs, base) && PlainPlan(plan)
      modifies this
      ensures SameOutside(old(fs), fs, base)
      ensures ok <==> Fits(plan, readable, |plan|)
      ensures ok ==> Filled(old(fs), fs, base, plan, |plan|, created) && Furnished(fs, base, plan, created)
    {
      ok := true;
      FilledStart(fs, base, plan, created);
      for n := 0 to |plan|
        invariant ok && Stocked(old(fs), fs, base, plan, readable, n, created)
      {
        ok := PlaceEntry(base, plan, n, readable, created, old(fs));
        if !ok {
          return;
        }
      }
    }

    /** One link of the second phase. */
    method PlaceLink(path: Path, target: string) returns (ok: bool)
      modifies this
      ensures ok == PlacedLink(old(fs), path, target).Some?
      ensures ok ==> fs == PlacedLink(old(fs), path, target).value && LinkAt(fs, path, target)
      ensures Grows(old(fs), fs)
    {
      ok := MakeDirectories(Parent(path));
      MakeAllGrows(old(fs), Parent(path));
      if !ok || !LinkTarget(target) {
        return false;
      }
      ghost var before := fs;
      ok := MakeOne(path, Link(target));
      if ok {
        LinkMade(before, path, target);
      }
    }

    method PlaceNext(base: Path, plan: seq<Entry>, n: nat, ghost start: Fs, ghost mode: nat) returns (ok: bool)
      requires n < |plan| && plan[n].member.kind.Sym?
      requires Linked(start, fs, base, plan, n) && SoFar(start, fs, base, plan, n, mode)
      modifies this
      ensures Grows(start, fs)
      ensures ok ==> Linked(start, fs, base, plan, n + 1) && SoFar(start, fs, base, plan, n + 1, mode)
      ensures !ok && Closed(start) && Plain(base) && PlainPlan(plan) ==> !LinksOpen(start, base, plan, 0)
      ensures !ok && Furnished(start, base, plan, mode) && Apart(plan) ==> !Placeable(plan, |plan|)
    {
      ghost var before := fs;
      ok := PlaceLink(base + plan[n].path, plan[n].member.linkname);
      LinkedGrows(start, before, fs, base, plan, n);
      if ok {
        SoFarLink(start, before, fs, base, plan, n, mode);
      } else {
        SoFarFails(start, before, base, plan, n, mode);
      }
    }

    /** Links come last. Wherever they lead, also under each other, no regular file is touched. They are
        all made exactly if each path opens in its turn. For that each must hang free of what is stored,
        and that is enough unless one is below another. */
    method MakeLinks(base: Path, plan: seq<Entry>, ghost mode: nat) returns (ok: bool)
      modifies this
      ensures Grows(old(fs), fs)
      ensures ok ==> Linked(old(fs), fs, base, plan, |plan|)
      ensures Closed(old(fs)) && Plain(base) && PlainPlan(plan) ==> (ok <==> LinksOpen(old(fs), base, plan, 0))
      ensures Furnished(old(fs), base, plan, mode) && ok ==> Placeable(plan, |plan|)
      ensures Furnished(old(fs), base, plan, mode) && Placeable(plan, |plan|) && Apart(plan) ==> ok
    {
      ok := true;
      for n := 0 to |plan|
        invariant ok && Linked(old(fs), fs, base, plan, n)
        invariant SoFar(old(fs), fs, base, plan, n, mode)
      {
        if plan[n].member.kind.Sym? {
          ok := PlaceNext(base, plan, n, old(fs), mode);
          if !ok {
            return;
          }
        } else {
          SoFarOther(old(fs), fs, base, plan, n, mode);
        }
      }
    }

    /** `chmod` follows links to the node it changes. */
    method SetMode(path: Path, mode: nat)
      requires IsFile(fs, path)
      modifies this
      ensures var place := Locate(old(fs), path, true).path;
              fs == old(fs)[place := Regular(old(fs)[place].content, mode)]
    {
      var place := Locate(fs, path, true).path;
      fs := fs[place := Regular(fs[place].content, mode)];
    }

    /** One pinned name must be a regular file with its digest. */
    method VerifyOne(base: Path, plan: seq<Entry>, manifest: Manifest, digest: string -> string, name: string,
                     ghost linked: Fs, ghost done: set<string>, ghost created: nat) returns (ok: bool)
      requires Verified(linked, fs, base, plan, manifest, digest, done, created)
      requires name in manifest.digests
      modifies this
      ensures ok <==> Pinned(plan, manifest, digest, name)
      ensures Verified(linked, fs, base, plan, manifest, digest, if ok then done + {name} else done, created)
    {
      var path := base + PathParts(name);
      ghost var i := NameFound(linked, fs, base, plan, manifest, done, {}, created, name);
      PinnedEntry(plan, manifest, digest, name, i);
      if IsSymlink(fs, path) || !IsFile(fs, path) {
        return false;
      }
      var place := Locate(fs, path, true).path;
      if Lower(digest(fs[place].content)) != Lower(manifest.digests[name]) {
        return false;
      }
      SetPinned(linked, fs, base, plan, manifest, done, created, i);
      SetMode(path, PINNED_MODE);
      ok := true;
    }

    /** All pinned names, up to the first that fails; `done` are those that passed. */
    method VerifyDigests(base: Path, plan: seq<Entry>, manifest: Manifest, digest: string -> string, ghost created: nat)
      returns (ok: bool, ghost done: set<string>)
      requires Verified(fs, fs, base, plan, manifest, digest, {}, created)
      modifies this
      ensures Verified(old(fs), fs, base, plan, manifest, digest, done, created)
      ensures ok ==> manifest.digests.Keys <= done
      ensures ok <==> AllPinned(plan, manifest, digest, manifest.digests.Keys)
    {
      ghost var linked := fs;
      var names := manifest.digests.Keys;
      var rest := names;
      done := {};
      ok := true;
      while rest != {}
        invariant ok && rest <= names && names - rest <= done
        invariant Verified(linked, fs, base, plan, manifest, digest, done, created)
        decreases rest
      {
        var name :| name in rest;
        rest := rest - {name};
        ok := VerifyOne(base, plan, manifest, digest, name, linked, done, created);
        if !ok {
          return;
        }
        done := done + {name};
      }
    }

    method RestrictOne(base: Path, plan: seq<Entry>, manifest: Manifest, name: string,
                       ghost linked: Fs, ghost plain: set<string>, ghost created: nat)
      requires Populated(linked, base, plan, manifest)
      requires Moded(linked, fs, base, plan, manifest.digests.Keys, plain, created)
      requires name in manifest.files
      modifies this
      ensures Moded(linked, fs, base, plan, manifest.digests.Keys, plain + {name}, created)
    {
      var path := base + PathParts(name);
      ghost var i := NameFound(linked, fs, base, plan, manifest, manifest.digests.Keys, plain, created, name);
      if IsFile(fs, path) && !IsSymlink(fs, path) && name !in manifest.digests {
        SetPlain(linked, fs, base, plan, manifest, manifest.digests.Keys, plain, created, i);
        SetMode(path, PLAIN_MODE);
      } else {
        SkipName(linked, fs, base, plan, manifest, plain, created, i);
      }
    }

    /** Every other listed regular file loses its execute bits. */
    method RestrictModes(base: Path, plan: seq<Entry>, manifest: Manifest, ghost linked: Fs, ghost created: nat)
      requires Populated(linked, base, plan, manifest)
      requires Moded(linked, fs, base, plan, manifest.digests.Keys, {}, created)
      modifies this
      ensures Moded(linked, fs, base, plan, manifest.digests.Keys, manifest.files, created)
    {
      var rest := manifest.files;
      ghost var done: set<string> := {};
      while rest != {}
        invariant done + rest == manifest.files
        invariant Moded(linked, fs, base, plan, manifest.digests.Keys, done, created)
        decreases |rest|
      {
        var name :| name in rest;
        rest := rest - {name};
        RestrictOne(base, plan, manifest, name, linked, done, created);
        done := done + {name};
      }
      assert done == manifest.files;
    }

    /** The three phases for a checked plan. */
    method ExtractPlan(base: Path, plan: seq<Entry>, manifest: Manifest,
                       digest: string -> string, readable: Path -> bool, created: nat)
      returns (ok: bool, ghost mid: Fs)
      requires EmptyStaging(fs, base) && Ready(plan, manifest)
      modifies this
      ensures OutsideFilesKept(old(fs), fs, base)
      ensures ok ==> Extracted(fs, base, plan, manifest, digest) && Extractable(plan, manifest, digest, readable)
      ensures Extractable(plan, manifest, digest, readable) && Apart(plan) ==> ok
      ensures Fits(plan, readable, |plan|) ==> Furnished(mid, base, plan, created) && SameOutside(old(fs), mid, base)
      ensures Closed(old(fs)) ==> (ok <==> ExtractableVia(mid, base, plan, manifest, digest, readable))
    {
      ghost var start := fs;
      ok := FillStaging(base, plan, readable, created);
      mid := fs;
      ViaExactly(mid, base, plan, manifest, digest, readable);
      if !ok {
        return;
      }
      if Closed(start) {
        FilledClosed(start, mid, base, plan, created);
      }
      ok := MakeLinks(base, plan, created);
      GrowthOutside(start, mid, fs, base);
      if !ok {
        return;
      }
      ghost var linked := fs;
      FilledPopulates(start, mid, linked, base, plan, manifest, created);
      ghost var done;
      ok, done := VerifyDigests(base, plan, manifest, digest, created);
      ModesOutside(start, linked, fs, base, plan, done, {}, created);
      if ok {
        AllVerified(linked, fs, base, plan, manifest, digest, done, created);
        RestrictModes(base, plan, manifest, linked, created);
        ModesOutside(start, linked, fs, base, plan, manifest.digests.Keys, manifest.files, created);
        Concluded(start, mid, linked, fs, base, plan, manifest, digest, created);
      }
    }

    /** `_extract_verified_archive`. `readable` tells which files the archive yields, `created` is
        what the umask leaves of a new file's mode. Whatever happens, no regular file outside the
        staging directory is added, changed or removed. An archive is extracted exactly if it is
        acceptable, its files fit, its links open one after the other in the state `mid` of which there
        is only one (`FurnishedOnce`), and its digests are right. */
    method Extract(base: Path, members: seq<Member>, manifest: Manifest, limit: int,
                   digest: string -> string, readable: Path -> bool, created: nat)
      returns (ok: bool, ghost plan: seq<Entry>, ghost mid: Fs)
      requires EmptyStaging(fs, base)
      modifies this
      ensures OutsideFilesKept(old(fs), fs, base)
      ensures ok ==> Acceptable(members, manifest, limit) && Plans(plan, members)
      ensures ok ==> Extracted(fs, base, plan, manifest, digest) && Extractable(plan, manifest, digest, readable)
      ensures Acceptable(members, manifest, limit) ==> Plans(plan, members)
      ensures (&& Acceptable(members, manifest, limit) && Apart(plan)
               && Extractable(plan, manifest, digest, readable)) ==> ok
      ensures Acceptable(members, manifest, limit) && Fits(plan, readable, |plan|) ==>
                Furnished(mid, base, plan, created) && SameOutside(old(fs), mid, base)
      ensures Closed(old(fs)) ==>
                (ok <==> && Acceptable(members, manifest, limit)
                         && ExtractableVia(mid, base, plan, manifest, digest, readable))
    {
      plan, mid := [], fs;
      ok := false;
      var checked := InspectArchive(members, manifest, limit);
      if checked.Some? {
        plan := checked.value;
        AcceptedIsReady(plan, members, manifest, limit);
        ok, mid := ExtractPlan(base, checked.value, manifest, digest, readable, created);
      }
    }
  }
}
