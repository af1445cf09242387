/** The lock, read, replace protocol that every writer of a private file follows, as the steps of
    any number of processes. A process can fail or die between any two steps. */
module SecureFiles {
  import opened Text

  /** What a job makes of the content its lock holder reads (`None` for a missing file): the text
      to write, or nothing to write. */
  type Update<!J> = (J, Option<string>) -> Option<string>

  /** Where a process is inside `with private_lock(path)`. The ticket numbers its acquisition. */
  datatype Phase<J> =
    | Outside
    | Locked(ticket: nat, job: J)
    | Looked(ticket: nat, job: J, found: bool)
    | Composed(ticket: nat, job: J, text: string)
    | Writing(ticket: nat, job: J, text: string, inode: nat)
    | Replaced(ticket: nat)
    | Leaving

  /** An unlocked `read_text` under way: the inode it opened, how many commits there were then,
      and what it has read so far. */
  datatype Reading = Reading(inode: nat, version: nat, got: string)

  datatype Commit<J> = Commit(ticket: nat, job: J)

  /** Inodes keep their content after they lose their name. `temps` are the inodes that still have
      a temporary name, `strays` those among them that no process will remove. */
  datatype Disk<J> = Disk(
    inodes: seq<string>, entry: Option<nat>, temps: set<nat>, strays: set<nat>,
    holder: Option<nat>, phases: map<nat, Phase<J>>, readers: map<nat, Reading>,
    tickets: nat, log: seq<Commit<J>>)

  datatype Action<J> =
    | Acquire(p: nat, job: J)
    | Look(p: nat)
    | Read(p: nat)
    | MakeTemp(p: nat)
    | Write(p: nat, count: nat)
    | Replace(p: nat)
    | Settle(p: nat)
    | Fail(p: nat, unlinked: bool)
    | Release(p: nat)
    | Crash(p: nat)
    | Open(r: nat)
    | Fetch(r: nat, count: nat)

  function PhaseOf<J>(s: Disk<J>, p: nat): Phase<J> {
    if p in s.phases then s.phases[p] else Outside
  }

  function Least(a: nat, b: nat): nat {
    if a < b then a else b
  }

  /** The file's content as a reader that opens it now will see it. */
  function Content<J>(s: Disk<J>): Option<string> {
    if s.entry.Some? && s.entry.value < |s.inodes| then Some(s.inodes[s.entry.value]) else None
  }

  function Move<J>(s: Disk<J>, p: nat, phase: Phase<J>): Disk<J> {
    s.(phases := s.phases[p := phase])
  }

  /** An exception: `finally` unlinks the temporary file, unless that fails too. After the replace
      there is no temporary name left to unlink. */
  function Failed<J>(s: Disk<J>, p: nat, unlinked: bool): Disk<J> {
    var phase := PhaseOf(s, p);
    if phase.Outside? then s
    else if phase.Writing? && unlinked then Move(s, p, Leaving).(temps := s.temps - {phase.inode})
    else if phase.Writing? then Move(s, p, Leaving).(strays := s.strays + {phase.inode})
    else Move(s, p, Leaving)
  }

  /** The system drops a dead process's lock, and nobody unlinks its temporary file. */
  function Crashed<J>(s: Disk<J>, p: nat): Disk<J> {
    var phase := PhaseOf(s, p);
    if phase.Outside? then s
    else Move(s, p, Outside).(holder := None, strays := if phase.Writing? then s.strays + {phase.inode} else s.strays)
  }

  /** What a reader has after fetching up to `count` more characters. */
  function Fetched<J>(s: Disk<J>, reading: Reading, count: nat): string
    requires reading.inode < |s.inodes|
  {
    var whole, n := s.inodes[reading.inode], |reading.got|;
    if n <= |whole| then reading.got + whole[n..Least(n + count, |whole|)] else reading.got
  }

  /** One step. A step that is not possible in the process's phase does nothing. */
  function Step<J>(apply: Update<J>, s: Disk<J>, a: Action<J>): Disk<J> {
    match a
    case Acquire(p, job) =>
      if s.holder.Some? then s
      else Move(s, p, Locked(s.tickets, job)).(holder := Some(p), tickets := s.tickets + 1)
    case Look(p) =>
      var phase := PhaseOf(s, p);
      if !phase.Locked? then s else Move(s, p, Looked(phase.ticket, phase.job, Content(s).Some?))
    case Read(p) =>
      var phase := PhaseOf(s, p);
      if !phase.Looked? then s
      else if phase.found && Content(s).None? then Move(s, p, Leaving)
      else
        var text := apply(phase.job, if phase.found then Content(s) else None);
        Move(s, p, if text.Some? then Composed(phase.ticket, phase.job, text.value) else Leaving)
    case MakeTemp(p) =>
      var phase := PhaseOf(s, p);
      if !phase.Composed? then s
      else
        Move(s, p, Writing(phase.ticket, phase.job, phase.text, |s.inodes|))
        .(inodes := s.inodes + [""], temps := s.temps + {|s.inodes|})
    case Write(p, count) =>
      var phase := PhaseOf(s, p);
      if !phase.Writing? || phase.inode >= |s.inodes| then s
      else s.(inodes := s.inodes[phase.inode := phase.text[..Least(count, |phase.text|)]])
    case Replace(p) =>
      var phase := PhaseOf(s, p);
      if !phase.Writing? || phase.inode >= |s.inodes| || s.inodes[phase.inode] != phase.text then s
      else
        Move(s, p, Replaced(phase.ticket))
        .(entry := Some(phase.inode), temps := s.temps - {phase.inode},
          log := s.log + [Commit(phase.ticket, phase.job)])
    case Settle(p) =>
      if PhaseOf(s, p).Replaced? then Move(s, p, Leaving) else s
    case Fail(p, unlinked) => Failed(s, p, unlinked)
    case Release(p) =>
      if PhaseOf(s, p).Leaving? then Move(s, p, Outside).(holder := None) else s
    case Crash(p) => Crashed(s, p)
    case Open(r) =>
      if s.entry.None? then s else s.(readers := s.readers[r := Reading(s.entry.value, |s.log|, "")])
    case Fetch(r, count) =>
      if r !in s.readers || s.readers[r].inode >= |s.inodes| then s
      else
        var reading := s.readers[r];
        s.(readers := s.readers[r := reading.(got := Fetched(s, reading, count))])
  }

  function Run<J>(apply: Update<J>, s: Disk<J>, actions: seq<Action<J>>): Disk<J>
    decreases |actions|
  {
    if actions == [] then s else Run(apply, Step(apply, s, actions[0]), actions[1..])
  }

  function Start<J>(initial: Option<string>): Disk<J> {
    Disk(if initial.Some? then [initial.value] else [], if initial.Some? then Some(0) else None, {}, {},
         None, map[], map[], 0, [])
  }

  /** The updates applied one after another, each whole. */
  function Applied<J>(apply: Update<J>, initial: Option<string>, log: seq<Commit<J>>): Option<string> {
    if log == [] then initial
    else
      var before := Applied(apply, initial, log[..|log| - 1]);
      var text := apply(log[|log| - 1].job, before);
      if text.Some? then text else before
  }

  // ---- invariant ----------------------------------------------------------------------

  /** Only the holder of the lock is inside. */
  ghost predicate Exclusive<J>(s: Disk<J>) {
    forall p: nat :: !PhaseOf(s, p).Outside? <==> s.holder == Some(p)
  }

  /** What the lock holder knows is still true, because nobody else writes. */
  predicate UpToDate<J>(apply: Update<J>, s: Disk<J>, phase: Phase<J>) {
    && (phase.Looked? ==> phase.found == Content(s).Some?)
    && (phase.Composed? || phase.Writing? ==> apply(phase.job, Content(s)) == Some(phase.text))
    && (phase.Writing? ==>
          phase.inode < |s.inodes| && s.entry != Some(phase.inode) && phase.inode in s.temps - s.strays)
    && (phase.Writing? ==> phase.text[..Least(|s.inodes[phase.inode]|, |phase.text|)] == s.inodes[phase.inode])
  }

  ghost predicate Informed<J>(apply: Update<J>, s: Disk<J>) {
    forall p: nat :: UpToDate(apply, s, PhaseOf(s, p))
  }

  /** Commits happen in the order in which the lock was acquired. */
  predicate InOrder<J>(s: Disk<J>) {
    && (forall i, j | 0 <= i < j < |s.log| :: s.log[i].ticket < s.log[j].ticket)
    && (forall i | 0 <= i < |s.log| :: s.log[i].ticket < s.tickets)
  }

  predicate Pending<J>(s: Disk<J>, phase: Phase<J>) {
    && (phase.Locked? || phase.Looked? || phase.Composed? || phase.Writing? ==>
          phase.ticket < s.tickets && forall i | 0 <= i < |s.log| :: s.log[i].ticket < phase.ticket)
    && (phase.Replaced? ==> s.log != [] && s.log[|s.log| - 1].ticket == phase.ticket)
  }

  ghost predicate Ticketed<J>(s: Disk<J>) {
    forall p: nat :: Pending(s, PhaseOf(s, p))
  }

  predicate Named<J>(s: Disk<J>) {
    && (s.entry.Some? ==> s.entry.value < |s.inodes| && s.entry.value !in s.temps)
    && s.strays <= s.temps
    && (forall n | n in s.temps :: n < |s.inodes|)
  }

  /** A temporary name goes away with its writer, unless the writer died or could not unlink it. */
  ghost predicate Tidy<J>(s: Disk<J>) {
    forall n | n in s.temps && n !in s.strays ::
      s.holder.Some? && PhaseOf(s, s.holder.value).Writing? && PhaseOf(s, s.holder.value).inode == n
  }

  /** A reading has a prefix of one committed version, in an inode nobody writes any more. */
  predicate Faithful<J>(apply: Update<J>, initial: Option<string>, s: Disk<J>, reading: Reading) {
    && reading.inode < |s.inodes| && reading.inode !in s.temps
    && reading.version <= |s.log|
    && Applied(apply, initial, s.log[..reading.version]) == Some(s.inodes[reading.inode])
    && reading.got <= s.inodes[reading.inode]
  }

  predicate Readers<J>(apply: Update<J>, initial: Option<string>, s: Disk<J>) {
    forall r | r in s.readers :: Faithful(apply, initial, s, s.readers[r])
  }

  ghost predicate Inv<J>(apply: Update<J>, initial: Option<string>, s: Disk<J>) {
    && Exclusive(s) && Informed(apply, s) && InOrder(s) && Ticketed(s) && Named(s) && Tidy(s)
    && Readers(apply, initial, s)
    && Content(s) == Applied(apply, initial, s.log)
  }

  lemma AcquireKeeps<J>(apply: Update<J>, initial: Option<string>, s: Disk<J>, p: nat, job: J)
    requires Inv(apply, initial, s)
    ensures Inv(apply, initial, Step(apply, s, Acquire(p, job)))
  {
    AcquireFrames(apply, s, p, job);
  }

  lemma AcquireFrames<J>(apply: Update<J>, s: Disk<J>, p: nat, job: J)
    requires Exclusive(s) && Informed(apply, s) && InOrder(s) && Ticketed(s) && Tidy(s)
    ensures var t := Step(apply, s, Acquire(p, job));
            Exclusive(t) && Informed(apply, t) && InOrder(t) && Ticketed(t) && Tidy(t)
  {
  }

  lemma LookKeeps<J>(apply: Update<J>, initial: Option<string>, s: Disk<J>, p: nat)
    requires Inv(apply, initial, s)
    ensures Inv(apply, initial, Step(apply, s, Look(p)))
  {
  }

  lemma ReadKeeps<J>(apply: Update<J>, initial: Option<string>, s: Disk<J>, p: nat)
    requires Inv(apply, initial, s)
    ensures Inv(apply, initial, Step(apply, s, Read(p)))
  {
  }

  /** A new temporary file is nobody's entry and in nobody's hands. */
  lemma MakeTempKeeps<J>(apply: Update<J>, initial: Option<string>, s: Disk<J>, p: nat)
    requires Inv(apply, initial, s)
    ensures Inv(apply, initial, Step(apply, s, MakeTemp(p)))
  {
    MakeTempFrames(apply, s, p);
    MakeTempReaders(apply, initial, s, p);
  }

  lemma MakeTempFrames<J>(apply: Update<J>, s: Disk<J>, p: nat)
    requires Exclusive(s) && Informed(apply, s) && Ticketed(s) && Named(s) && Tidy(s)
    ensures var t := Step(apply, s, MakeTemp(p));
            Exclusive(t) && Informed(apply, t) && Ticketed(t) && Named(t) && Tidy(t) && Content(t) == Content(s)
  {
    assert UpToDate(apply, s, PhaseOf(s, p)) && Pending(s, PhaseOf(s, p));
  }

  lemma MakeTempReaders<J>(apply: Update<J>, initial: Option<string>, s: Disk<J>, p: nat)
    requires Readers(apply, initial, s)
    ensures Readers(apply, initial, Step(apply, s, MakeTemp(p)))
  {
    var t := Step(apply, s, MakeTemp(p));
    forall r | r in t.readers
      ensures Faithful(apply, initial, t, t.readers[r])
    {
      assert Faithful(apply, initial, s, s.readers[r]);
    }
  }

  lemma WriteKeeps<J>(apply: Update<J>, initial: Option<string>, s: Disk<J>, p: nat, count: nat)
    requires Inv(apply, initial, s)
    ensures Inv(apply, initial, Step(apply, s, Write(p, count)))
  {
    WriteFrames(apply, s, p, count);
    WriteReaders(apply, initial, s, p, count);
  }

  /** Only the holder's own temporary file changes. */
  lemma WriteFrames<J>(apply: Update<J>, s: Disk<J>, p: nat, count: nat)
    requires Exclusive(s) && Informed(apply, s) && Named(s)
    ensures var t := Step(apply, s, Write(p, count)); Informed(apply, t) && Content(t) == Content(s)
  {
    var t := Step(apply, s, Write(p, count));
    assert UpToDate(apply, s, PhaseOf(s, p));
    forall q: nat
      ensures UpToDate(apply, t, PhaseOf(t, q))
    {
      assert UpToDate(apply, s, PhaseOf(s, q));
      assert q == p || PhaseOf(s, q).Outside? || PhaseOf(s, p).Outside?;
    }
  }

  lemma WriteReaders<J>(apply: Update<J>, initial: Option<string>, s: Disk<J>, p: nat, count: nat)
    requires Readers(apply, initial, s) && Informed(apply, s)
    ensures Readers(apply, initial, Step(apply, s, Write(p, count)))
  {
    var t := Step(apply, s, Write(p, count));
    assert UpToDate(apply, s, PhaseOf(s, p));
    forall r | r in t.readers
      ensures Faithful(apply, initial, t, t.readers[r])
    {
      assert Faithful(apply, initial, s, s.readers[r]);
    }
  }

  lemma AppliedSnoc<J>(apply: Update<J>, initial: Option<string>, log: seq<Commit<J>>, c: Commit<J>)
    requires apply(c.job, Applied(apply, initial, log)).Some?
    ensures Applied(apply, initial, log + [c]) == apply(c.job, Applied(apply, initial, log))
  {
    assert (log + [c])[..|log|] == log;
  }

  lemma FaithfulExtends<J>(apply: Update<J>, initial: Option<string>, s: Disk<J>, t: Disk<J>, c: Commit<J>)
    requires Readers(apply, initial, s) && t.readers == s.readers && t.inodes == s.inodes && t.temps <= s.temps
    requires t.log == s.log + [c]
    ensures Readers(apply, initial, t)
  {
    forall r | r in t.readers
      ensures Faithful(apply, initial, t, t.readers[r])
    {
      var version := s.readers[r].version;
      assert Faithful(apply, initial, s, s.readers[r]);
      assert t.log[..version] == s.log[..version];
    }
  }

  /** The new file is the update of the old one, since nobody wrote in between. */
  lemma ReplaceKeeps<J>(apply: Update<J>, initial: Option<string>, s: Disk<J>, p: nat)
    requires Inv(apply, initial, s)
    ensures Inv(apply, initial, Step(apply, s, Replace(p)))
  {
    var phase, t := PhaseOf(s, p), Step(apply, s, Replace(p));
    if phase.Writing? && s.inodes[phase.inode] == phase.text {
      var c := Commit(phase.ticket, phase.job);
      assert UpToDate(apply, s, phase) && Pending(s, phase);
      AppliedSnoc(apply, initial, s.log, c);
      FaithfulExtends(apply, initial, s, t, c);
      ReplaceOrders(apply, s, p);
      ReplaceFrames(apply, s, p);
    }
  }

  lemma ReplaceOrders<J>(apply: Update<J>, s: Disk<J>, p: nat)
    requires Exclusive(s) && InOrder(s) && Ticketed(s) && PhaseOf(s, p).Writing?
    ensures InOrder(Step(apply, s, Replace(p))) && Ticketed(Step(apply, s, Replace(p)))
  {
    var t := Step(apply, s, Replace(p));
    assert Pending(s, PhaseOf(s, p));
    forall q: nat
      ensures Pending(t, PhaseOf(t, q))
    {
      if q != p {
        assert PhaseOf(t, q) == PhaseOf(s, q);
      }
    }
  }

  lemma ReplaceFrames<J>(apply: Update<J>, s: Disk<J>, p: nat)
    requires Exclusive(s) && Informed(apply, s) && Named(s) && Tidy(s)
    ensures var t := Step(apply, s, Replace(p)); Exclusive(t) && Informed(apply, t) && Named(t) && Tidy(t)
  {
    assert UpToDate(apply, s, PhaseOf(s, p));
  }

  lemma SettleKeeps<J>(apply: Update<J>, initial: Option<string>, s: Disk<J>, p: nat)
    requires Inv(apply, initial, s)
    ensures Inv(apply, initial, Step(apply, s, Settle(p)))
  {
  }

  lemma FailFrames<J>(apply: Update<J>, s: Disk<J>, p: nat, unlinked: bool)
    requires Exclusive(s) && Informed(apply, s) && Named(s) && Tidy(s) && Ticketed(s)
    ensures var t := Failed(s, p, unlinked); Exclusive(t) && Informed(apply, t) && Named(t) && Tidy(t) && Ticketed(t)
  {
    assert UpToDate(apply, s, PhaseOf(s, p));
  }

  lemma FailKeeps<J>(apply: Update<J>, initial: Option<string>, s: Disk<J>, p: nat, unlinked: bool)
    requires Inv(apply, initial, s)
    ensures Inv(apply, initial, Step(apply, s, Fail(p, unlinked)))
  {
    assert UpToDate(apply, s, PhaseOf(s, p));
    FailFrames(apply, s, p, unlinked);
  }

  lemma ReleaseKeeps<J>(apply: Update<J>, initial: Option<string>, s: Disk<J>, p: nat)
    requires Inv(apply, initial, s)
    ensures Inv(apply, initial, Step(apply, s, Release(p)))
  {
  }

  lemma CrashKeeps<J>(apply: Update<J>, initial: Option<string>, s: Disk<J>, p: nat)
    requires Inv(apply, initial, s)
    ensures Inv(apply, initial, Step(apply, s, Crash(p)))
  {
  }

  lemma OpenKeeps<J>(apply: Update<J>, initial: Option<string>, s: Disk<J>, r: nat)
    requires Inv(apply, initial, s)
    ensures Inv(apply, initial, Step(apply, s, Open(r)))
  {
    assert s.log[..|s.log|] == s.log;
    if s.entry.Some? {
      ReadersMove(apply, initial, s, r, Reading(s.entry.value, |s.log|, ""));
    }
  }

  lemma FetchKeeps<J>(apply: Update<J>, initial: Option<string>, s: Disk<J>, r: nat, count: nat)
    requires Inv(apply, initial, s)
    ensures Inv(apply, initial, Step(apply, s, Fetch(r, count)))
  {
    if r in s.readers {
      var reading := s.readers[r];
      assert Faithful(apply, initial, s, reading);
      ReadersMove(apply, initial, s, r, reading.(got := Fetched(s, reading, count)));
    }
  }

  lemma ReadersMove<J>(apply: Update<J>, initial: Option<string>, s: Disk<J>, r: nat, reading: Reading)
    requires Inv(apply, initial, s) && Faithful(apply, initial, s, reading)
    ensures Inv(apply, initial, s.(readers := s.readers[r := reading]))
  {
  }

  lemma StepKeeps<J>(apply: Update<J>, initial: Option<string>, s: Disk<J>, a: Action<J>)
    requires Inv(apply, initial, s)
    ensures Inv(apply, initial, Step(apply, s, a))
  {
    match a
    case Acquire(p, job) => AcquireKeeps(apply, initial, s, p, job);
    case Look(p) => LookKeeps(apply, initial, s, p);
    case Read(p) => ReadKeeps(apply, initial, s, p);
    case MakeTemp(p) => MakeTempKeeps(apply, initial, s, p);
    case Write(p, count) => WriteKeeps(apply, initial, s, p, count);
    case Replace(p) => ReplaceKeeps(apply, initial, s, p);
    case Settle(p) => SettleKeeps(apply, initial, s, p);
    case Fail(p, unlinked) => FailKeeps(apply, initial, s, p, unlinked);
    case Release(p) => ReleaseKeeps(apply, initial, s, p);
    case Crash(p) => CrashKeeps(apply, initial, s, p);
    case Open(r) => OpenKeeps(apply, initial, s, r);
    case Fetch(r, count) => FetchKeeps(apply, initial, s, r, count);
  }

  lemma {:induction false} RunKeeps<J>(apply: Update<J>, initial: Option<string>, s: Disk<J>, actions: seq<Action<J>>)
    requires Inv(apply, initial, s)
    ensures Inv(apply, initial, Run(apply, s, actions))
    decreases |actions|
  {
    if actions != [] {
      StepKeeps(apply, initial, s, actions[0]);
      RunKeeps(apply, initial, Step(apply, s, actions[0]), actions[1..]);
    }
  }

  lemma StartInv<J>(apply: Update<J>, initial: Option<string>)
    ensures Inv(apply, initial, Start(initial))
  {
  }

  // ---- the protocol's promises ----------------------------------------------------------

  /** At every point of every run the file is the initial one with the committed updates applied
      one after another, in the order in which their writers got the lock: none is lost, none is
      applied to an outdated text and none is half there. */
  lemma Serialized<J>(apply: Update<J>, initial: Option<string>, actions: seq<Action<J>>)
    ensures var s := Run(apply, Start(initial), actions);
            && Content(s) == Applied(apply, initial, s.log)
            && (forall i, j | 0 <= i < j < |s.log| :: s.log[i].ticket < s.log[j].ticket)
  {
    StartInv(apply, initial);
    RunKeeps(apply, initial, Start(initial), actions);
  }

  /** No two processes are ever inside at once. */
  lemma MutualExclusion<J>(apply: Update<J>, initial: Option<string>, actions: seq<Action<J>>, p: nat, q: nat)
    requires !PhaseOf(Run(apply, Start(initial), actions), p).Outside?
             && !PhaseOf(Run(apply, Start(initial), actions), q).Outside?
    ensures p == q
  {
    StartInv(apply, initial);
    RunKeeps(apply, initial, Start(initial), actions);
    var s := Run(apply, Start(initial), actions);
    assert s.holder == Some(p) && s.holder == Some(q);
  }

  /** Whatever an unlocked reader has read is a prefix of one whole version of the file, and all of
      that version once it has read to the end. The version is the one that was current when the
      reader opened the file, however many writers have come and gone since. */
  lemma ReaderSeesOneVersion<J>(apply: Update<J>, initial: Option<string>, actions: seq<Action<J>>, r: nat)
    requires r in Run(apply, Start(initial), actions).readers
    ensures var s := Run(apply, Start(initial), actions);
            var reading := s.readers[r];
            && reading.version <= |s.log|
            && Applied(apply, initial, s.log[..reading.version]).Some?
            && reading.inode < |s.inodes|
            && reading.got <= Applied(apply, initial, s.log[..reading.version]).value
            && (|reading.got| == |s.inodes[reading.inode]| ==>
                  Some(reading.got) == Applied(apply, initial, s.log[..reading.version]))
  {
    StartInv(apply, initial);
    RunKeeps(apply, initial, Start(initial), actions);
    var s := Run(apply, Start(initial), actions);
    var reading := s.readers[r];
    assert Faithful(apply, initial, s, reading);
    if |reading.got| == |s.inodes[reading.inode]| {
      assert reading.got == s.inodes[reading.inode];
    }
  }

  lemma {:induction false} LogGrows<J>(apply: Update<J>, s: Disk<J>, actions: seq<Action<J>>)
    ensures s.log <= Run(apply, s, actions).log
    decreases |actions|
  {
    if actions != [] {
      StepLogs(apply, s, actions[0]);
      LogGrows(apply, Step(apply, s, actions[0]), actions[1..]);
    }
  }

  lemma StepLogs<J>(apply: Update<J>, s: Disk<J>, a: Action<J>)
    ensures s.log <= Step(apply, s, a).log
  {
  }

  /** A writer that got past its replace has its update in the file for good, whatever happens to
      it or to anyone else afterwards. */
  lemma CommittedForGood<J>(apply: Update<J>, initial: Option<string>, before: seq<Action<J>>, p: nat,
                            after: seq<Action<J>>)
    requires PhaseOf(Run(apply, Start(initial), before), p).Replaced?
    ensures var s := Run(apply, Start(initial), before);
            var t := Run(apply, s, after);
            && s.log != [] && s.log[|s.log| - 1].ticket == PhaseOf(s, p).ticket
            && s.log <= t.log && Content(t) == Applied(apply, initial, t.log)
  {
    StartInv(apply, initial);
    RunKeeps(apply, initial, Start(initial), before);
    var s := Run(apply, Start(initial), before);
    assert Pending(s, PhaseOf(s, p));
    RunKeeps(apply, initial, s, after);
    LogGrows(apply, s, after);
  }

  predicate Calm<J>(a: Action<J>) {
    !a.Crash? && (a.Fail? ==> a.unlinked)
  }

  lemma {:induction false} NoStrays<J>(apply: Update<J>, s: Disk<J>, actions: seq<Action<J>>)
    requires forall i | 0 <= i < |actions| :: Calm(actions[i])
    ensures Run(apply, s, actions).strays == s.strays
    decreases |actions|
  {
    if actions != [] {
      assert Calm(actions[0]);
      StepCalm(apply, s, actions[0]);
      NoStrays(apply, Step(apply, s, actions[0]), actions[1..]);
    }
  }

  lemma StepCalm<J>(apply: Update<J>, s: Disk<J>, a: Action<J>)
    requires Calm(a)
    ensures Step(apply, s, a).strays == s.strays
  {
  }

  /** Unless a process dies or an unlink fails, no temporary file survives its writer: with nobody
      inside there is none. */
  lemma NothingLeftBehind<J>(apply: Update<J>, initial: Option<string>, actions: seq<Action<J>>)
    requires forall i | 0 <= i < |actions| :: Calm(actions[i])
    requires Run(apply, Start(initial), actions).holder.None?
    ensures Run(apply, Start(initial), actions).temps == {}
  {
    StartInv(apply, initial);
    RunKeeps(apply, initial, Start(initial), actions);
    NoStrays(apply, Start(initial), actions);
  }

  /** The steps of a writer that nothing disturbs. */
  function Undisturbed<J>(apply: Update<J>, s: Disk<J>, p: nat, job: J, count: nat): Disk<J> {
    var composed := Step(apply, Step(apply, Step(apply, s, Acquire(p, job)), Look(p)), Read(p));
    var replaced := Step(apply, Step(apply, Step(apply, composed, MakeTemp(p)), Write(p, count)), Replace(p));
    Step(apply, Step(apply, replaced, Settle(p)), Release(p))
  }

  lemma AcquireToRead<J>(apply: Update<J>, initial: Option<string>, s: Disk<J>, p: nat, job: J)
    requires Inv(apply, initial, s) && s.holder.None? && apply(job, Content(s)).Some?
    ensures var t := Step(apply, Step(apply, Step(apply, s, Acquire(p, job)), Look(p)), Read(p));
            && PhaseOf(t, p) == Composed(s.tickets, job, apply(job, Content(s)).value)
            && t.inodes == s.inodes && t.log == s.log && t.holder == Some(p) && t.entry == s.entry
  {
  }

  lemma WriteToReplace<J>(apply: Update<J>, s: Disk<J>, p: nat, count: nat)
    requires PhaseOf(s, p).Composed? && count >= |PhaseOf(s, p).text|
    ensures var phase := PhaseOf(s, p);
            var t := Step(apply, Step(apply, Step(apply, s, MakeTemp(p)), Write(p, count)), Replace(p));
            && PhaseOf(t, p) == Replaced(phase.ticket) && t.holder == s.holder
            && Content(t) == Some(phase.text) && t.log == s.log + [Commit(phase.ticket, phase.job)]
  {
    var text := PhaseOf(s, p).text;
    assert text[..|text|] == text;
  }

  /** A writer that finds the lock free and writes all of its text has its update in the file. */
  lemma UndisturbedCommits<J>(apply: Update<J>, initial: Option<string>, s: Disk<J>, p: nat, job: J, count: nat)
    requires Inv(apply, initial, s) && s.holder.None? && apply(job, Content(s)).Some?
    requires count >= |apply(job, Content(s)).value|
    ensures Content(Undisturbed(apply, s, p, job, count)) == apply(job, Content(s))
    ensures Undisturbed(apply, s, p, job, count).log == s.log + [Commit(s.tickets, job)]
    ensures Undisturbed(apply, s, p, job, count).holder == None
  {
    AcquireToRead(apply, initial, s, p, job);
    var composed := Step(apply, Step(apply, Step(apply, s, Acquire(p, job)), Look(p)), Read(p));
    WriteToReplace(apply, composed, p, count);
  }

  // ---- leaving the lock, and reading to the end ------------------------------------------------------

  /** A process that dies gives the lock back, whatever it was doing, and the file is what it was. */
  lemma CrashFrees<J>(apply: Update<J>, s: Disk<J>, p: nat)
    requires !PhaseOf(s, p).Outside?
    ensures var t := Step(apply, s, Crash(p));
            && t.holder == None && PhaseOf(t, p).Outside? && Content(t) == Content(s) && t.log == s.log
            && t.inodes == s.inodes && t.entry == s.entry
  {
  }

  /** So does one that meets an exception; and then a temporary file is left behind exactly if it had made one
      and could not unlink it. */
  lemma FailureReleases<J>(apply: Update<J>, s: Disk<J>, p: nat, unlinked: bool)
    requires !PhaseOf(s, p).Outside?
    ensures var t := Step(apply, Step(apply, s, Fail(p, unlinked)), Release(p));
            var phase := PhaseOf(s, p);
            && t.holder == None && PhaseOf(t, p).Outside? && Content(t) == Content(s) && t.log == s.log
            && (phase.Writing? && unlinked ==> t.temps == s.temps - {phase.inode} && t.strays == s.strays)
            && (phase.Writing? && !unlinked ==> t.temps == s.temps && t.strays == s.strays + {phase.inode})
            && (!phase.Writing? ==> t.temps == s.temps && t.strays == s.strays)
  {
  }

  /** While the lock is held nobody else gets it. */
  lemma HeldWaits<J>(apply: Update<J>, s: Disk<J>, p: nat, job: J)
    requires s.holder.Some?
    ensures Step(apply, s, Acquire(p, job)) == s
  {
  }

  /** An update that makes nothing of the file leaves it, and gives the lock back. */
  lemma NothingToWrite<J>(apply: Update<J>, initial: Option<string>, s: Disk<J>, p: nat, job: J)
    requires Inv(apply, initial, s) && s.holder.None? && apply(job, Content(s)).None?
    ensures var t := Step(apply, Step(apply, Step(apply, s, Acquire(p, job)), Look(p)), Read(p));
            var u := Step(apply, t, Release(p));
            && Content(u) == Content(s) && u.log == s.log && u.holder == None && u.temps == s.temps
  {
  }

  /** A reader that opens an existing file and reads enough has all of it. */
  lemma ReaderGetsAll<J>(apply: Update<J>, initial: Option<string>, s: Disk<J>, r: nat, count: nat)
    requires Inv(apply, initial, s) && Content(s).Some? && count >= |Content(s).value|
    ensures var t := Step(apply, Step(apply, s, Open(r)), Fetch(r, count));
            r in t.readers && t.readers[r].got == Content(s).value && Content(t) == Content(s)
  {
  }
}
