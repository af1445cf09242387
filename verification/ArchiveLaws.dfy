/** Exactly which names, link targets, modes and archives are accepted, spelled out. */
module ArchiveLaws {
  import opened Text
  import opened Archive
  import opened FileSystem

  /** Nothing and a single dot are no steps. */
  function NamedStep(part: string): seq<string> {
    if part == "" || part == "." then [] else [part]
  }

  lemma {:induction false} SolidExactly(parts: seq<string>)
    ensures Solid(parts) == FlatMap(parts, NamedStep)
    ensures forall part :: part in Solid(parts) <==> part in parts && part != "" && part != "."
  {
    if parts != [] {
      SolidExactly(parts[1..]);
    }
  }

  /** Exactly the accepted names: relative on every platform, without NUL, backslash or parent step. The path is
      what stands between the slashes, but for nothing and single dots. */
  lemma NameExactly(name: string)
    ensures NormaliseName(name).Some?
       <==> && name != "" && name[0] != '/' && name[0] != '\\'
            && !Has(name, '\0') && !Has(name, '\\') && ".." !in Split(name, '/')
    ensures NormaliseName(name).Some? ==>
              NormaliseName(name).value
              == FlatMap(Split(name, '/'), NamedStep)
  {
    SolidExactly(Split(name, '/'));
    if name != "" {
      assert name[0] == '\\' ==> Has(name, '\\');
    }
  }

  // ---- link targets -----------------------------------------------------------------------

  lemma {:induction false} DepthExactly(depth: int, parts: seq<string>)
    ensures Depth(depth, parts) == depth + |parts| - 2 * multiset(parts)[".."]
  {
    if parts != [] {
      var init := parts[..|parts| - 1];
      DepthExactly(depth, init);
      assert parts == init + [parts[|parts| - 1]];
    }
  }

  /** No named step has a backslash, and no prefix has more parent steps than there are directories to leave. */
  predicate Inside(depth: int, steps: seq<string>) {
    && (forall k | 0 <= k < |steps| :: steps[k] == ".." || !Has(steps[k], '\\'))
    && (forall k | 0 <= k <= |steps| :: 2 * multiset(steps[..k])[".."] <= k + depth)
  }

  /** Exactly the accepted targets: relative on every platform, and inside. */
  lemma TargetExactly(path: Path, target: string)
    ensures SafeTarget(path, target)
       <==> && (target == "" || (target[0] != '/' && target[0] != '\\'))
            && Inside(if path == [] then 0 else |path| - 1, FlatMap(Split(target, '/'), NamedStep))
  {
    SolidExactly(Split(target, '/'));
    assert PathParts(target) == FlatMap(Split(target, '/'), NamedStep);
    assert |Parent(path)| == if path == [] then 0 else |path| - 1;
    InsideExactly(|Parent(path)|, PathParts(target));
  }

  lemma InsideExactly(depth: int, parts: seq<string>)
    ensures StaysInside(depth, parts) <==> Inside(depth, parts)
  {
    forall k | 0 <= k <= |parts|
      ensures Depth(depth, parts[..k]) >= 0 <==> 2 * multiset(parts[..k])[".."] <= k + depth
    {
      DepthExactly(depth, parts[..k]);
    }
  }

  // ---- modes --------------------------------------------------------------------------------

  /** Of three permission digits, one is odd. */
  lemma ModeDigits(special: nat, user: nat, group: nat, other: nat)
    requires user < 8 && group < 8 && other < 8
    ensures ExecutableBits(512 * special + 64 * user + 8 * group + other)
       <==> user % 2 == 1 || group % 2 == 1 || other % 2 == 1
  {
    var mode := 512 * special + 64 * user + 8 * group + other;
    Eighth(mode, 64 * special + 8 * user + group, other);
    SixtyFourth(mode, 8 * special + user, 8 * group + other);
    SameParity(mode, 256 * special + 32 * user + 4 * group, other);
    SameParity(mode / 8, 32 * special + 4 * user, group);
    SameParity(mode / 64, 4 * special, user);
  }

  lemma Eighth(n: int, q: int, r: nat)
    requires r < 8 && n == 8 * q + r
    ensures n / 8 == q
  {
  }

  lemma SixtyFourth(n: int, q: int, r: nat)
    requires r < 64 && n == 64 * q + r
    ensures n / 64 == q
  {
  }

  lemma SameParity(n: int, half: int, r: int)
    requires n == 2 * half + r
    ensures n % 2 == r % 2
  {
  }

  // ---- whole archives -------------------------------------------------------------------------

  /** A member that passes alone. */
  predicate Passes(m: Member, manifest: Manifest) {
    var path := NormaliseName(m.name);
    && path.Some?
    && match m.kind
       case Dir => true
       case Sym => SafeTarget(path.value, m.linkname)
       case File => m.size >= 0 && (ExecutableBits(m.mode) ==> Posix(path.value) in manifest.digests)
       case Hard => false
       case Special => false
       case Other => false
  }

  /** The size of all regular files. */
  function Size(members: seq<Member>): int {
    if members == [] then 0
    else (if members[0].kind == File then members[0].size else 0) + Size(members[1..])
  }

  /** Some file or link has this name. */
  predicate Lists(members: seq<Member>, name: string) {
    exists i | 0 <= i < |members| ::
      (members[i].kind == File || members[i].kind == Sym) && NormaliseName(members[i].name).Some?
      && Posix(NormaliseName(members[i].name).value) == name
  }

  lemma {:induction false} SizeSnoc(members: seq<Member>, m: Member)
    ensures Size(members + [m]) == Size(members) + if m.kind == File then m.size else 0
  {
    if members == [] {
      assert members + [m] == [m];
    } else {
      assert (members + [m])[1..] == members[1..] + [m];
      SizeSnoc(members[1..], m);
    }
  }

  lemma {:induction false} TotalIsSize(members: seq<Member>, n: nat)
    requires n <= |members|
    ensures Total(members, n) == Size(members[..n])
  {
    if n > 0 {
      TotalIsSize(members, n - 1);
      assert members[..n] == members[..n - 1] + [members[n - 1]];
      SizeSnoc(members[..n - 1], members[n - 1]);
    }
  }

  /** Exactly the acceptable archives. */
  lemma AcceptableExactly(members: seq<Member>, manifest: Manifest, limit: int)
    ensures Acceptable(members, manifest, limit)
       <==> && (forall i | 0 <= i < |members| :: Passes(members[i], manifest))
            && (forall i, j | 0 <= i < j < |members| ::
                  NormaliseName(members[i].name) != NormaliseName(members[j].name))
            && (Size(members) <= limit || forall i | 0 <= i < |members| :: members[i].kind != File)
            && (forall name :: name in manifest.files <==> Lists(members, name))
            && (forall name :: name in manifest.digests ==> name in manifest.files)
  {
    assert members[..|members|] == members;
    TotalIsSize(members, |members|);
    AllPass(members, manifest);
    if forall i | 0 <= i < |members| :: Sound(members[i], manifest) {
      ListsExactly(members, manifest);
      UniqueExactly(members, manifest);
    }
  }

  lemma AllPass(members: seq<Member>, manifest: Manifest)
    ensures (forall i | 0 <= i < |members| :: Sound(members[i], manifest))
       <==> forall i | 0 <= i < |members| :: Passes(members[i], manifest)
  {
    forall i | 0 <= i < |members|
      ensures Passes(members[i], manifest) <==> Sound(members[i], manifest)
    {
      PassesExactly(members[i], manifest);
    }
  }

  lemma PassesExactly(m: Member, manifest: Manifest)
    ensures Passes(m, manifest) <==> Sound(m, manifest)
  {
  }

  lemma UniqueExactly(members: seq<Member>, manifest: Manifest)
    requires forall i | 0 <= i < |members| :: Sound(members[i], manifest)
    ensures Unique(members)
       <==> forall i, j | 0 <= i < j < |members| :: NormaliseName(members[i].name) != NormaliseName(members[j].name)
  {
    forall i | 0 <= i < |members|
      ensures NormaliseName(members[i].name) == Some(PathOf(members[i]))
    {
      assert Sound(members[i], manifest);
    }
  }

  lemma ListsExactly(members: seq<Member>, manifest: Manifest)
    requires forall i | 0 <= i < |members| :: Sound(members[i], manifest)
    ensures forall name :: name in FileNames(members) <==> Lists(members, name)
    ensures FileNames(members) == manifest.files <==> forall name :: name in manifest.files <==> Lists(members, name)
  {
    forall name
      ensures name in FileNames(members) <==> Lists(members, name)
    {
      if name in FileNames(members) {
        var i :| 0 <= i < |members| && members[i].kind in {File, Sym} && NameOf(members[i]) == name;
        assert Sound(members[i], manifest);
      }
      if Lists(members, name) {
        var i :| 0 <= i < |members| && (members[i].kind == File || members[i].kind == Sym)
                 && NormaliseName(members[i].name).Some? && Posix(NormaliseName(members[i].name).value) == name;
        assert NameOf(members[i]) == name;
      }
    }
  }

  /** The plan of an acceptable archive has its members in their order, each with its path. */
  lemma PlanExactly(plan: seq<Entry>, members: seq<Member>, manifest: Manifest, limit: int)
    requires Acceptable(members, manifest, limit)
    ensures Plans(plan, members)
       <==> && |plan| == |members|
            && forall i | 0 <= i < |members| ::
                 plan[i].member == members[i] && NormaliseName(members[i].name) == Some(plan[i].path)
  {
    assert forall i | 0 <= i < |members| :: Sound(members[i], manifest);
  }

  // ---- where an accepted link leads ----------------------------------------------------------------

  /** Taken from a real directory below `base`, the steps lead through real directories, to something that is
      not a link itself. */
  predicate Through(fs: Fs, base: Path, at: Path, parts: seq<string>)
    decreases |parts|
  {
    if parts == [] then true
    else if parts[0] == ".." then Through(fs, base, Parent(at), parts[1..])
    else
      var next := base + (at + [parts[0]]);
      if |parts| == 1 then next in fs ==> !fs[next].Link?
      else next in fs && fs[next].Directory? && Through(fs, base, at + [parts[0]], parts[1..])
  }

  lemma {:induction false} WalkThrough(fs: Fs, base: Path, at: Path, parts: seq<string>, fuel: nat)
    requires Resolve(at, parts).Some? && Through(fs, base, at, parts)
    ensures Walk(fs, base + at, parts, true, fuel) == At(base + Resolve(at, parts).value)
    decreases |parts|
  {
    if parts != [] {
      if parts[0] == ".." {
        assert Parent(base + at) == base + Parent(at);
        WalkThrough(fs, base, Parent(at), parts[1..], fuel);
      } else {
        var next := base + (at + [parts[0]]);
        assert base + at + [parts[0]] == next;
        if |parts| == 1 {
          LastWalked(fs, base + at, parts, next, fuel);
        } else {
          WalkThrough(fs, base, at + [parts[0]], parts[1..], fuel);
        }
      }
    }
  }

  lemma LastWalked(fs: Fs, at: Path, parts: seq<string>, next: Path, fuel: nat)
    requires |parts| == 1 && parts[0] != ".." && next == at + parts && (next in fs ==> !fs[next].Link?)
    ensures Walk(fs, at, parts, true, fuel) == At(next)
  {
    assert parts[1..] == [] && at + [parts[0]] == next;
  }

  /** Following an accepted link from its place ends below the staging directory, whatever its target looks
      like, as long as it passes real directories only. */
  lemma LinkStaysBelow(fs: Fs, base: Path, path: Path, target: string)
    requires Plain(base + path) && path != [] && RealDirs(fs, base + Parent(path))
    requires base + path in fs && fs[base + path] == Link(target)
    requires SafeTarget(path, target) && target != "" && Through(fs, base, Parent(path), PathParts(target))
    ensures var found, resolved := Locate(fs, base + path, true), Resolve(Parent(path), PathParts(target));
            resolved.Some? && found == At(base + resolved.value) && base <= found.path
  {
    var parent, last := base + Parent(path), path[|path| - 1];
    ResolveCounts(Parent(path), PathParts(target));
    TargetExactly(path, target);
    assert parent + [last] == base + path;
    WalkThrough(fs, base, Parent(path), PathParts(target), MAX_LINKS - 1);
    StepInto(fs, parent, last, MAX_LINKS);
    assert last == (base + path)[|base + path| - 1];
    LinkStep(fs, parent, last, target, MAX_LINKS);
  }

  lemma LinkStep(fs: Fs, parent: Path, last: string, target: string, fuel: nat)
    requires last != ".." && parent + [last] in fs && fs[parent + [last]] == Link(target) && fuel > 0
    requires target != "" && target[0] != '/'
    ensures Walk(fs, parent, [last], true, fuel) == Walk(fs, parent, PathParts(target), true, fuel - 1)
  {
    assert [last][1..] == [] && PathParts(target) + [] == PathParts(target);
  }

  /** The last step of a walk down real directories. */
  lemma StepInto(fs: Fs, parent: Path, last: string, fuel: nat)
    requires Plain(parent + [last]) && RealDirs(fs, parent)
    ensures Walk(fs, [], parent + [last], true, fuel) == Walk(fs, parent, [last], true, fuel)
  {
    forall n | 0 <= n <= |parent|
      ensures IsDirectory(fs, [] + parent[..n])
    {
      assert [] + parent[..n] == parent[..n];
    }
    assert forall i | 0 <= i < |parent| :: parent[i] == (parent + [last])[i];
    Descend(fs, [], parent, last, fuel);
    assert [] + parent == parent;
  }

  lemma {:induction false} Descend(fs: Fs, at: Path, parts: seq<string>, last: string, fuel: nat)
    requires Plain(parts) && forall n | 0 < n <= |parts| :: IsDirectory(fs, at + parts[..n])
    ensures Walk(fs, at, parts + [last], true, fuel) == Walk(fs, at + parts, [last], true, fuel)
    decreases |parts|
  {
    if parts == [] {
      assert at + parts == at && parts + [last] == [last];
    } else {
      var next, rest := at + [parts[0]], parts[1..];
      var whole := parts + [last];
      assert whole[0] == parts[0] && whole[1..] == rest + [last];
      assert at + parts[..1] == next && next + rest == at + parts;
      forall n | 0 < n <= |rest|
        ensures IsDirectory(fs, next + rest[..n])
      {
        assert next + rest[..n] == at + parts[..n + 1];
      }
      Descend(fs, next, rest, last, fuel);
    }
  }

  /** So it is for every link of an accepted archive. */
  lemma AcceptedLinkStaysBelow(members: seq<Member>, manifest: Manifest, limit: int, i: nat, fs: Fs, base: Path)
    requires Acceptable(members, manifest, limit) && i < |members| && members[i].kind == Sym
    requires var path := PathOf(members[i]);
             && Plain(base + path) && path != [] && RealDirs(fs, base + Parent(path)) && base + path in fs
             && fs[base + path] == Link(members[i].linkname) && members[i].linkname != ""
             && Through(fs, base, Parent(path), PathParts(members[i].linkname))
    ensures var found := Locate(fs, base + PathOf(members[i]), true); found.At? && base <= found.path
  {
    assert Sound(members[i], manifest);
    LinkStaysBelow(fs, base, PathOf(members[i]), members[i].linkname);
  }
}
