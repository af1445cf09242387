/** The plan of an archive: every member checked before anything is written. */
module Archive {
  import opened Text

  // ---- relative POSIX paths -----------------------------------------------------------

  type Path = seq<string>

  function Solid(parts: seq<string>): seq<string> {
    if parts == [] then []
    else (if parts[0] == "" || parts[0] == "." then [] else [parts[0]]) + Solid(parts[1..])
  }

  /** `PurePosixPath(text).parts` for a text that does not start with a slash. */
  function PathParts(text: string): Path {
    Solid(Split(text, '/'))
  }

  /** `as_posix()` */
  function Posix(path: Path): string {
    if path == [] then "." else Join(path, '/')
  }

  /** `parent.parts` */
  function Parent(path: Path): Path {
    if path == [] then [] else path[..|path| - 1]
  }

  predicate CleanPart(part: string) {
    part != "" && part != "." && part != ".." && !Has(part, '/') && !Has(part, '\\') && !Has(part, '\0')
  }

  /** Parts that name one step down on every platform. */
  predicate Clean(path: Path) {
    forall i | 0 <= i < |path| :: CleanPart(path[i])
  }

  predicate Rooted(text: string) {
    text != "" && (text[0] == '/' || text[0] == '\\')
  }

  /** `_normalise_member_name`. A name like `./` stands for the staging directory itself. */
  function NormaliseName(name: string): Option<Path> {
    if name == "" || Has(name, '\0') then None
    else if Rooted(name) then None
    else if Has(name, '\\') || ".." in PathParts(name) then None
    else Some(PathParts(name))
  }

  // ---- laws of paths ------------------------------------------------------------------

  lemma {:induction false} SolidParts(parts: seq<string>, bad: char)
    requires forall i | 0 <= i < |parts| :: !Has(parts[i], bad)
    ensures forall i | 0 <= i < |Solid(parts)| ::
              Solid(parts)[i] != "" && Solid(parts)[i] != "." && !Has(Solid(parts)[i], bad)
  {
    if parts != [] {
      SolidParts(parts[1..], bad);
    }
  }

  lemma {:induction false} SplitAvoids(s: string, sep: char, bad: char)
    requires !Has(s, bad)
    ensures forall i | 0 <= i < |Split(s, sep)| :: !Has(Split(s, sep)[i], bad)
    decreases |s|
  {
    var n := IndexOf(s, sep);
    if n < |s| {
      var rest := s[n + 1..];
      assert forall i | 0 <= i < |rest| :: rest[i] == s[n + 1 + i];
      SplitAvoids(rest, sep, bad);
    }
  }

  /** An accepted name is a path of clean parts. */
  lemma NormalisedIsClean(name: string)
    requires NormaliseName(name).Some?
    ensures Clean(NormaliseName(name).value)
  {
    var parts := Split(name, '/');
    JoinSplit(name, '/');
    SolidParts(parts, '/');
    SplitAvoids(name, '/', '\\');
    SolidParts(parts, '\\');
    SplitAvoids(name, '/', '\0');
    SolidParts(parts, '\0');
  }

  lemma {:induction false} SolidClean(path: Path)
    requires Clean(path)
    ensures Solid(path) == path
  {
    if path != [] {
      assert CleanPart(path[0]);
      assert forall i | 0 <= i < |path[1..]| :: path[1..][i] == path[i + 1];
      SolidClean(path[1..]);
    }
  }

  /** The text of a clean path reads back as that path. */
  lemma PosixReads(path: Path)
    requires Clean(path)
    ensures PathParts(Posix(path)) == path
  {
    if path == [] {
      IndexOfIs(".", '/', 1);
      assert Split(".", '/') == ["."];
      assert ["."][1..] == [];
    } else {
      SplitJoin(path, '/');
      SolidClean(path);
    }
  }

  /** So different clean paths have different texts, and comparing texts compares paths. */
  lemma PosixInjective(a: Path, b: Path)
    requires Clean(a) && Clean(b) && Posix(a) == Posix(b)
    ensures a == b
  {
    PosixReads(a);
    PosixReads(b);
  }

  // ---- link targets ---------------------------------------------------------------------

  /** The stack machine: `..` pops, anything else is pushed. */
  function Resolve(stack: Path, parts: seq<string>): Option<Path>
    decreases |parts|
  {
    if parts == [] then Some(stack)
    else if parts[0] == ".." then
      if stack == [] then None else Resolve(stack[..|stack| - 1], parts[1..])
    else if Has(parts[0], '\\') then None
    else Resolve(stack + [parts[0]], parts[1..])
  }

  /** How deep below `depth` directories the parts lead, if every step counts. */
  function Depth(depth: int, parts: seq<string>): int {
    if parts == [] then depth
    else Depth(depth, parts[..|parts| - 1]) + if parts[|parts| - 1] == ".." then -1 else 1
  }

  /** No prefix climbs above the root, and no part contains a backslash. */
  predicate StaysInside(depth: int, parts: seq<string>) {
    && (forall k | 0 <= k <= |parts| :: Depth(depth, parts[..k]) >= 0)
    && (forall k | 0 <= k < |parts| :: parts[k] != ".." ==> !Has(parts[k], '\\'))
  }

  lemma {:induction false} DepthCons(depth: int, part: string, parts: seq<string>)
    ensures Depth(depth, [part] + parts) == Depth(depth + if part == ".." then -1 else 1, parts)
    decreases |parts|
  {
    if parts == [] {
      assert [part] + parts == [part];
      assert [part][..0] == [];
    } else {
      var all := [part] + parts;
      assert all[..|all| - 1] == [part] + parts[..|parts| - 1];
      DepthCons(depth, part, parts[..|parts| - 1]);
    }
  }

  lemma InsideCons(depth: int, part: string, parts: seq<string>)
    requires depth >= 0
    ensures StaysInside(depth, [part] + parts)
       <==> (part != ".." ==> !Has(part, '\\'))
            && StaysInside(depth + if part == ".." then -1 else 1, parts)
  {
    var all := [part] + parts;
    var next := depth + if part == ".." then -1 else 1;
    forall k | 0 <= k <= |parts|
      ensures Depth(depth, all[..k + 1]) == Depth(next, parts[..k])
    {
      assert all[..k + 1] == [part] + parts[..k];
      DepthCons(depth, part, parts[..k]);
    }
    assert all[..0] == [];
    if StaysInside(depth, all) {
      forall k | 0 <= k <= |parts|
        ensures Depth(next, parts[..k]) >= 0
      {
        assert Depth(depth, all[..k + 1]) >= 0;
      }
      forall k | 0 <= k < |parts|
        ensures parts[k] != ".." ==> !Has(parts[k], '\\')
      {
        assert all[k + 1] == parts[k];
      }
      assert all[0] == part;
    }
    if (part != ".." ==> !Has(part, '\\')) && StaysInside(next, parts) {
      forall k | 0 <= k <= |all|
        ensures Depth(depth, all[..k]) >= 0
      {
        if k > 0 {
          assert Depth(next, parts[..k - 1]) >= 0;
        }
      }
    }
  }

  /** The stack machine accepts exactly the targets that the count accepts. */
  lemma {:induction false} ResolveCounts(stack: Path, parts: seq<string>)
    ensures Resolve(stack, parts).Some? <==> StaysInside(|stack|, parts)
    ensures Resolve(stack, parts).Some? ==> |Resolve(stack, parts).value| == Depth(|stack|, parts)
    decreases |parts|
  {
    if parts == [] {
      assert parts[..0] == [];
    } else {
      assert parts == [parts[0]] + parts[1..];
      InsideCons(|stack|, parts[0], parts[1..]);
      DepthCons(|stack|, parts[0], parts[1..]);
      if parts[0] != ".." {
        ResolveCounts(stack + [parts[0]], parts[1..]);
      } else if stack != [] {
        ResolveCounts(stack[..|stack| - 1], parts[1..]);
      } else {
        assert parts[1..][..0] == [];
      }
    }
  }

  /** A link at `path` may point to `target`. */
  predicate SafeTarget(path: Path, target: string) {
    !Rooted(target) && StaysInside(|Parent(path)|, PathParts(target))
  }

  /** The loop over the parts of a link target. */
  method ResolveTarget(path: Path, target: string) returns (r: Option<Path>)
    ensures r == if Rooted(target) then None else Resolve(Parent(path), PathParts(target))
    ensures r.Some? <==> SafeTarget(path, target)
  {
    if Rooted(target) {
      return None;
    }
    var parts := PathParts(target);
    ResolveCounts(Parent(path), parts);
    var resolved := Parent(path);
    for i := 0 to |parts|
      invariant Resolve(resolved, parts[i..]) == Resolve(Parent(path), parts)
    {
      var part := parts[i];
      assert parts[i..][0] == part && parts[i..][1..] == parts[i + 1..];
      if part == ".." {
        if resolved == [] {
          return None;
        }
        resolved := resolved[..|resolved| - 1];
      } else {
        if Has(part, '\\') {
          return None;
        }
        resolved := resolved + [part];
      }
    }
    r := Some(resolved);
  }

  // ---- members ----------------------------------------------------------------------------

  datatype Kind = File | Dir | Sym | Hard | Special | Other

  /** The header fields of a member and the bytes it holds. */
  datatype Member = Member(name: string, kind: Kind, linkname: string, size: int, mode: int, content: string)

  datatype Manifest = Manifest(files: set<string>, digests: map<string, string>)

  datatype Entry = Entry(member: Member, path: Path)

  /** `mode & 0o111` */
  predicate ExecutableBits(mode: int) {
    mode / 64 % 2 == 1 || mode / 8 % 2 == 1 || mode % 2 == 1
  }

  function PathOf(m: Member): Path {
    if NormaliseName(m.name).Some? then NormaliseName(m.name).value else []
  }

  function NameOf(m: Member): string {
    Posix(PathOf(m))
  }

  /** What one member must satisfy on its own. */
  predicate Sound(m: Member, manifest: Manifest) {
    && NormaliseName(m.name).Some?
    && m.kind in {File, Dir, Sym}
    && (m.kind.Sym? ==> SafeTarget(PathOf(m), m.linkname))
    && (m.kind.File? ==> m.size >= 0 && (ExecutableBits(m.mode) ==> NameOf(m) in manifest.digests))
  }

  predicate Unique(members: seq<Member>) {
    forall i, j | 0 <= i < j < |members| :: PathOf(members[i]) != PathOf(members[j])
  }

  /** The summed sizes of the first `n` members' contents. */
  function Total(members: seq<Member>, n: nat): int
    requires n <= |members|
  {
    if n == 0 then 0 else Total(members, n - 1) + if members[n - 1].kind.File? then members[n - 1].size else 0
  }

  /** Names of the regular files and links. */
  function FileNames(members: seq<Member>): set<string> {
    set i | 0 <= i < |members| && members[i].kind in {File, Sym} :: NameOf(members[i])
  }

  /** What makes an archive acceptable for a manifest. */
  predicate Acceptable(members: seq<Member>, manifest: Manifest, limit: int) {
    && (forall i | 0 <= i < |members| :: Sound(members[i], manifest))
    && Unique(members)
    && ((exists i | 0 <= i < |members| :: members[i].kind.File?) ==> Total(members, |members|) <= limit)
    && FileNames(members) == manifest.files
    && manifest.digests.Keys <= manifest.files
  }

  lemma {:induction false} TotalGrows(members: seq<Member>, manifest: Manifest, m: nat, n: nat)
    requires m <= n <= |members| && forall i | 0 <= i < |members| :: Sound(members[i], manifest)
    ensures Total(members, m) <= Total(members, n)
  {
    if m < n {
      TotalGrows(members, manifest, m, n - 1);
      assert Sound(members[n - 1], manifest);
    }
  }

  /** The members checked so far, and what the loop remembers of them. */
  predicate Checked(members: seq<Member>, manifest: Manifest, limit: int, n: nat, plan: seq<Entry>,
                    seen: set<string>, files: set<string>, expanded: int)
    requires n <= |members|
  {
    && (forall i | 0 <= i < n :: Sound(members[i], manifest))
    && Unique(members[..n])
    && |plan| == n && (forall i | 0 <= i < n :: plan[i] == Entry(members[i], PathOf(members[i])))
    && (forall i | 0 <= i < n :: NameOf(members[i]) in seen)
    && (forall name | name in seen :: exists i | 0 <= i < n :: NameOf(members[i]) == name)
    && files == FileNames(members[..n])
    && expanded == Total(members, n)
    && ((exists i | 0 <= i < n :: members[i].kind.File?) ==> expanded <= limit)
  }

  /** A checked member's name is new exactly when its path is. */
  lemma NewName(members: seq<Member>, manifest: Manifest, limit: int, n: nat, plan: seq<Entry>,
                seen: set<string>, files: set<string>, expanded: int)
    requires n < |members| && Checked(members, manifest, limit, n, plan, seen, files, expanded)
    requires NormaliseName(members[n].name).Some?
    ensures NameOf(members[n]) in seen <==> exists i | 0 <= i < n :: PathOf(members[i]) == PathOf(members[n])
  {
    NormalisedIsClean(members[n].name);
    if NameOf(members[n]) in seen {
      var i :| 0 <= i < n && NameOf(members[i]) == NameOf(members[n]);
      assert Sound(members[i], manifest);
      NormalisedIsClean(members[i].name);
      PosixInjective(PathOf(members[i]), PathOf(members[n]));
    }
  }

  lemma FileNamesSnoc(members: seq<Member>, n: nat)
    requires n < |members|
    ensures FileNames(members[..n + 1])
         == FileNames(members[..n]) + if members[n].kind in {File, Sym} then {NameOf(members[n])} else {}
  {
    assert members[..n + 1] == members[..n] + [members[n]];
    forall name
      ensures name in FileNames(members[..n + 1])
         <==> name in FileNames(members[..n]) || (members[n].kind in {File, Sym} && name == NameOf(members[n]))
    {
      if name in FileNames(members[..n]) {
        var i :| 0 <= i < n && members[..n][i].kind in {File, Sym} && NameOf(members[..n][i]) == name;
        assert members[..n + 1][i] == members[..n][i];
      }
      if members[n].kind in {File, Sym} {
        assert members[..n + 1][n] == members[n];
      }
      if name in FileNames(members[..n + 1]) {
        var i :| 0 <= i < n + 1 && members[..n + 1][i].kind in {File, Sym} && NameOf(members[..n + 1][i]) == name;
        assert i < n ==> members[..n][i] == members[..n + 1][i];
      }
    }
  }

  lemma UniqueSnoc(members: seq<Member>, n: nat)
    requires n < |members| && Unique(members[..n])
    requires forall i | 0 <= i < n :: PathOf(members[i]) != PathOf(members[n])
    ensures Unique(members[..n + 1])
  {
    var ms := members[..n + 1];
    assert forall i | 0 <= i < n :: ms[i] == members[..n][i];
    assert forall i | 0 <= i < n :: ms[i] == members[i];
  }

  /** One more member with nothing wrong about it. */
  lemma CheckedSnoc(members: seq<Member>, manifest: Manifest, limit: int, n: nat, plan: seq<Entry>,
                    seen: set<string>, files: set<string>, expanded: int)
    requires n < |members| && Checked(members, manifest, limit, n, plan, seen, files, expanded)
    requires Sound(members[n], manifest) && NameOf(members[n]) !in seen
    requires members[n].kind.File? ==> expanded + members[n].size <= limit
    ensures var m := members[n];
            Checked(members, manifest, limit, n + 1, plan + [Entry(m, PathOf(m))], seen + {NameOf(m)},
                    if m.kind in {File, Sym} then files + {NameOf(m)} else files,
                    if m.kind.File? then expanded + m.size else expanded)
  {
    NewName(members, manifest, limit, n, plan, seen, files, expanded);
    UniqueSnoc(members, n);
    FileNamesSnoc(members, n);
  }

  lemma Duplicated(members: seq<Member>, manifest: Manifest, limit: int, i: nat, n: nat)
    requires i < n < |members| && PathOf(members[i]) == PathOf(members[n])
    ensures !Acceptable(members, manifest, limit)
  {
  }

  lemma Oversized(members: seq<Member>, manifest: Manifest, limit: int, n: nat)
    requires n < |members| && members[n].kind.File? && Total(members, n + 1) > limit
    ensures !Acceptable(members, manifest, limit)
  {
    if Acceptable(members, manifest, limit) {
      TotalGrows(members, manifest, n + 1, |members|);
    }
  }

  /** The checks of one member with an acceptable name. */
  method InspectMember(member: Member, path: Path, manifest: Manifest) returns (ok: bool)
    requires NormaliseName(member.name) == Some(path)
    ensures ok == Sound(member, manifest)
    ensures ok <==> match member.kind
                    case Dir => true
                    case Sym => SafeTarget(path, member.linkname)
                    case File => member.size >= 0 && (ExecutableBits(member.mode) ==> Posix(path) in manifest.digests)
                    case Hard => false
                    case Special => false
                    case Other => false
  {
    if member.kind !in {File, Dir, Sym} {
      return false;
    }
    if member.kind.Sym? {
      var resolved := ResolveTarget(path, member.linkname);
      return resolved.Some?;
    }
    if member.kind.File? {
      return member.size >= 0 && (ExecutableBits(member.mode) ==> Posix(path) in manifest.digests);
    }
    ok := true;
  }

  lemma Unacceptable(members: seq<Member>, manifest: Manifest, limit: int, n: nat)
    requires n < |members| && !Sound(members[n], manifest)
    ensures !Acceptable(members, manifest, limit)
  {
  }

  lemma SeenTwice(members: seq<Member>, manifest: Manifest, limit: int, n: nat, plan: seq<Entry>,
                  seen: set<string>, files: set<string>, expanded: int)
    requires n < |members| && Checked(members, manifest, limit, n, plan, seen, files, expanded)
    requires NormaliseName(members[n].name).Some? && NameOf(members[n]) in seen
    ensures !Acceptable(members, manifest, limit)
  {
    NewName(members, manifest, limit, n, plan, seen, files, expanded);
    var i :| 0 <= i < n && PathOf(members[i]) == PathOf(members[n]);
    Duplicated(members, manifest, limit, i, n);
  }

  lemma Judged(members: seq<Member>, manifest: Manifest, limit: int, plan: seq<Entry>,
               seen: set<string>, files: set<string>, expanded: int)
    requires Checked(members, manifest, limit, |members|, plan, seen, files, expanded)
    ensures Acceptable(members, manifest, limit) <==> files == manifest.files && manifest.digests.Keys <= files
    ensures Plans(plan, members)
  {
    assert members[..|members|] == members;
  }

  /** `_inspect_archive`: a plan exactly for the acceptable archives. */
  method InspectArchive(members: seq<Member>, manifest: Manifest, limit: int) returns (r: Option<seq<Entry>>)
    ensures r.Some? <==> Acceptable(members, manifest, limit)
    ensures r.Some? ==> Plans(r.value, members)
  {
    var plan: seq<Entry> := [];
    var seen: set<string> := {};
    var files: set<string> := {};
    var expanded := 0;
    for n := 0 to |members|
      invariant Checked(members, manifest, limit, n, plan, seen, files, expanded)
    {
      var member := members[n];
      var path := NormaliseName(member.name);
      if path.None? {
        Unacceptable(members, manifest, limit, n);
        return None;
      }
      var name := Posix(path.value);
      if name in seen {
        SeenTwice(members, manifest, limit, n, plan, seen, files, expanded);
        return None;
      }
      var ok := InspectMember(member, path.value, manifest);
      if !ok {
        Unacceptable(members, manifest, limit, n);
        return None;
      }
      if member.kind.File? && expanded + member.size > limit {
        Oversized(members, manifest, limit, n);
        return None;
      }
      CheckedSnoc(members, manifest, limit, n, plan, seen, files, expanded);
      seen := seen + {name};
      files := if member.kind in {File, Sym} then files + {name} else files;
      expanded := if member.kind.File? then expanded + member.size else expanded;
      plan := plan + [Entry(member, path.value)];
    }
    Judged(members, manifest, limit, plan, seen, files, expanded);
    r := if files == manifest.files && manifest.digests.Keys <= files then Some(plan) else None;
  }

  /** The member list in its order, with each member's path. */
  predicate Plans(plan: seq<Entry>, members: seq<Member>) {
    |plan| == |members| && forall i | 0 <= i < |members| :: plan[i] == Entry(members[i], PathOf(members[i]))
  }
}
