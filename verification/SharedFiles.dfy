/** What the lock protocol gives the bridges file, to which several processes append. */
module SharedFiles {
  import opened Text
  import opened Lines
  import opened SecureFiles
  import Bridges
  import BridgeStore

  // ---- which jobs get committed -----------------------------------------------------------

  predicate Carries<J>(ok: J -> bool, phase: Phase<J>) {
    phase.Locked? || phase.Looked? || phase.Composed? || phase.Writing? ==> ok(phase.job)
  }

  ghost predicate AllCarry<J>(ok: J -> bool, s: Disk<J>) {
    && (forall p: nat :: Carries(ok, PhaseOf(s, p)))
    && (forall i | 0 <= i < |s.log| :: ok(s.log[i].job))
  }

  predicate Brings<J>(ok: J -> bool, a: Action<J>) {
    a.Acquire? ==> ok(a.job)
  }

  lemma StepCarries<J>(ok: J -> bool, apply: Update<J>, s: Disk<J>, a: Action<J>)
    requires AllCarry(ok, s) && Brings(ok, a)
    ensures AllCarry(ok, Step(apply, s, a))
  {
    var t := Step(apply, s, a);
    forall p: nat
      ensures Carries(ok, PhaseOf(t, p))
    {
      assert Carries(ok, PhaseOf(s, p));
    }
    if a.Replace? {
      assert Carries(ok, PhaseOf(s, a.p));
    }
  }

  /** Only jobs that somebody started are ever committed. */
  lemma {:induction false} RunCarries<J>(ok: J -> bool, apply: Update<J>, s: Disk<J>, actions: seq<Action<J>>)
    requires AllCarry(ok, s) && forall i | 0 <= i < |actions| :: Brings(ok, actions[i])
    ensures AllCarry(ok, Run(apply, s, actions))
    decreases |actions|
  {
    if actions != [] {
      assert Brings(ok, actions[0]);
      StepCarries(ok, apply, s, actions[0]);
      RunCarries(ok, apply, Step(apply, s, actions[0]), actions[1..]);
    }
  }

  // ---- the bridges file ---------------------------------------------------------------------

  /** A call of `save_bridges_to_file`. */
  datatype Save = Save(lines: seq<string>, append: bool)

  function SaveJob(job: Save, file: Option<string>): Option<string> {
    BridgeStore.SaveText(job.lines, job.append, file)
  }

  /** An append whose lines all parse; any other raises before it takes the lock. */
  predicate Appends(job: Save) {
    job.append && BridgeStore.ParseAll(job.lines).Some?
  }

  /** The bridges a call writes. */
  function Batch(job: Save): seq<Bridges.Bridge> {
    var parsed := BridgeStore.ParseAll(job.lines);
    if parsed.Some? then parsed.value else []
  }

  lemma BatchCanonical(job: Save)
    ensures BridgeStore.AllCanonical(Batch(job))
  {
    if BridgeStore.ParseAll(job.lines).Some? {
      BridgeStore.ParsedAllCanonical(job.lines);
    }
  }

  function Batches(log: seq<Commit<Save>>): seq<Bridges.Bridge> {
    if log == [] then [] else Batches(log[..|log| - 1]) + Batch(log[|log| - 1].job)
  }

  lemma EncodeAppend(a: seq<Bridges.Bridge>, b: seq<Bridges.Bridge>)
    ensures BridgeStore.Encode(a + b) == BridgeStore.Encode(a) + BridgeStore.Encode(b)
  {
    assert BridgeStore.EncodeLines(a + b) == BridgeStore.EncodeLines(a) + BridgeStore.EncodeLines(b);
    ConcatAppend(BridgeStore.EncodeLines(a), BridgeStore.EncodeLines(b));
  }

  lemma CanonicalAppend(a: seq<Bridges.Bridge>, b: seq<Bridges.Bridge>)
    requires BridgeStore.AllCanonical(a) && BridgeStore.AllCanonical(b)
    ensures BridgeStore.AllCanonical(a + b)
  {
  }

  /** The text an append starts from. */
  function Base(file: Option<string>): string {
    if file.Some? then ReadText(file.value) else ""
  }

  /** A missing file, or one whose last line is finished. */
  predicate Appendable(file: Option<string>) {
    BridgeStore.LineEnded(Base(file))
  }

  lemma ReadBatches(text: string, batch: seq<Bridges.Bridge>)
    requires !Has(text, '\r') && BridgeStore.LineEnded(text) && BridgeStore.AllCanonical(batch)
    ensures ReadText(text + BridgeStore.Encode(batch)) == text + BridgeStore.Encode(batch)
  {
    var before, lines := SplitLines(text), BridgeStore.EncodeLines(batch);
    ConcatSplit(text);
    BridgeStore.EncodedProper(batch);
    ConcatAppend(before, lines);
    ConcatNoReturn(before + lines);
    ReadTextIdentity(Concat(before + lines));
  }

  /** What a file holds after some batches have been appended to it. */
  function Grown(initial: Option<string>, appended: bool, batch: seq<Bridges.Bridge>): Option<string> {
    if appended then Some(Base(initial) + BridgeStore.Encode(batch)) else initial
  }

  lemma GrowsFirst(initial: Option<string>, batch: seq<Bridges.Bridge>)
    ensures BridgeStore.Saved(initial, batch, true) == Base(initial) + BridgeStore.Encode([] + batch)
  {
    assert [] + batch == batch;
  }

  lemma GrowsOn(text: string, sofar: seq<Bridges.Bridge>, batch: seq<Bridges.Bridge>)
    requires !Has(text, '\r') && BridgeStore.LineEnded(text) && BridgeStore.AllCanonical(sofar)
    ensures BridgeStore.Saved(Some(text + BridgeStore.Encode(sofar)), batch, true)
            == text + BridgeStore.Encode(sofar + batch)
  {
    ReadBatches(text, sofar);
    EncodeAppend(sofar, batch);
    Associative(text, BridgeStore.Encode(sofar), BridgeStore.Encode(batch));
  }

  lemma Associative(a: string, b: string, c: string)
    ensures a + b + c == a + (b + c)
  {
  }

  /** Appended to each other, whole batches add up to one batch. */
  lemma {:induction false} AppendsAddUp(initial: Option<string>, log: seq<Commit<Save>>)
    requires Appendable(initial)
    requires forall i | 0 <= i < |log| :: Appends(log[i].job)
    ensures BridgeStore.AllCanonical(Batches(log))
    ensures Applied(SaveJob, initial, log) == Grown(initial, log != [], Batches(log))
  {
    if log != [] {
      var before, job := log[..|log| - 1], log[|log| - 1].job;
      assert forall i | 0 <= i < |before| :: before[i] == log[i];
      AppendsAddUp(initial, before);
      assert Appends(job);
      BatchCanonical(job);
      CanonicalAppend(Batches(before), Batch(job));
      if before == [] {
        GrowsFirst(initial, Batch(job));
      } else {
        GrowsOn(Base(initial), Batches(before), Batch(job));
      }
    }
  }

  function LoadFile(file: Option<string>): seq<Bridges.Bridge> {
    if file.Some? then BridgeStore.Load(file.value) else []
  }

  lemma GrownLoads(initial: Option<string>, appended: bool, batch: seq<Bridges.Bridge>)
    requires Appendable(initial) && BridgeStore.AllCanonical(batch) && (!appended ==> batch == [])
    ensures LoadFile(Grown(initial, appended, batch)) == LoadFile(initial) + BridgeStore.Readable(batch)
  {
    if appended {
      if initial.Some? {
        BridgeStore.AppendLoads(initial.value, batch);
      } else {
        BridgeStore.OverwriteLoads(None, batch);
      }
    }
  }

  lemma JobsOfRun<J>(ok: J -> bool, apply: Update<J>, initial: Option<string>, actions: seq<Action<J>>)
    requires forall i | 0 <= i < |actions| :: Brings(ok, actions[i])
    ensures forall i | 0 <= i < |Run(apply, Start(initial), actions).log| ::
            ok(Run(apply, Start(initial), actions).log[i].job)
  {
    RunCarries(ok, apply, Start(initial), actions);
  }

  /** Any number of processes appending to a bridges file whose last line is finished, failing or
      dying where they may: the file is always its initial text and the whole batches of those that
      committed, in lock order, and loads as the initial bridges followed by theirs. */
  lemma ConcurrentAppends(initial: Option<string>, actions: seq<Action<Save>>)
    requires Appendable(initial)
    requires forall i | 0 <= i < |actions| :: Brings(Appends, actions[i])
    ensures var s := Run(SaveJob, Start(initial), actions);
            && Content(s) == (if s.log == [] then initial else Some(Base(initial) + BridgeStore.Encode(Batches(s.log))))
            && LoadFile(Content(s)) == LoadFile(initial) + BridgeStore.Readable(Batches(s.log))
  {
    var s := Run(SaveJob, Start(initial), actions);
    Serialized(SaveJob, initial, actions);
    JobsOfRun(Appends, SaveJob, initial, actions);
    AppendsAddUp(initial, s.log);
    GrownLoads(initial, s.log != [], Batches(s.log));
  }

  /** And a reader that never takes the lock gets, once it has read to the end, the initial text and
      the whole batches committed before it opened the file. */
  lemma UnlockedReader(initial: Option<string>, actions: seq<Action<Save>>, r: nat)
    requires Appendable(initial)
    requires forall i | 0 <= i < |actions| :: Brings(Appends, actions[i])
    requires var s := Run(SaveJob, Start(initial), actions);
             r in s.readers && s.readers[r].inode < |s.inodes| && |s.readers[r].got| == |s.inodes[s.readers[r].inode]|
    ensures var s := Run(SaveJob, Start(initial), actions);
            var version := s.readers[r].version;
            && version <= |s.log|
            && Some(s.readers[r].got)
               == if version == 0 then initial else Some(Base(initial) + BridgeStore.Encode(Batches(s.log[..version])))
  {
    var s := Run(SaveJob, Start(initial), actions);
    var version := s.readers[r].version;
    ReaderSeesOneVersion(SaveJob, initial, actions, r);
    JobsOfRun(Appends, SaveJob, initial, actions);
    assert forall i | 0 <= i < version :: s.log[..version][i] == s.log[i];
    AppendsAddUp(initial, s.log[..version]);
  }
}
