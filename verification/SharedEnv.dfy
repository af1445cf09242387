/** What the lock protocol gives the `.env` file, which several gateways write and clean. */
module SharedEnv {
  import opened Text
  import opened Policy
  import opened Dotenv
  import opened DotenvLaws
  import opened SecureFiles

  /** A call of `write_gateway_env_file` or `remove_gateway_env_file`. */
  datatype EnvJob = Write(port: int, healthy: bool) | Clean

  /** A missing file counts as empty for a write, and is left missing by a removal. */
  function EnvText(local: Question): Update<EnvJob> {
    (job: EnvJob, file: Option<string>) =>
      if job.Clean? && file.None? then None
      else
        var outcome := OutcomeOf(TextOf(file), job, local);
        if outcome.raised then None else Some(outcome.text)
  }

  function OutcomeOf(raw: string, job: EnvJob, local: Question): Outcome {
    match job
    case Write(port, healthy) => Written(raw, port, healthy, local)
    case Clean => Removed(raw, local)
  }

  function TextOf(file: Option<string>): string {
    if file.Some? then file.value else ""
  }

  predicate Raising(raw: string, local: Question) {
    MigrateRaises(DotenvLaws.Read(raw), local)
  }

  predicate IsHealthy(job: EnvJob) {
    job.Write? && job.healthy
  }

  predicate Wrote(log: seq<Commit<EnvJob>>) {
    exists i | 0 <= i < |log| :: log[i].job.Write?
  }

  /** The position of the first healthy write, or the length of the log. */
  function FirstHealthy(log: seq<Commit<EnvJob>>): (k: nat)
    ensures k <= |log|
    ensures k < |log| ==> IsHealthy(log[k].job)
    ensures forall i | 0 <= i < k :: !IsHealthy(log[i].job)
  {
    if log == [] then 0
    else
      var n := |log| - 1;
      var k := FirstHealthy(log[..n]);
      if k < n || IsHealthy(log[n].job) then k else |log|
  }

  /** What a call makes of a text on which it does not raise. */
  function Effect(raw: string, job: EnvJob, local: Question): string {
    match job
    case Write(port, healthy) => Rewrite(raw, port, healthy, local)
    case Clean => Remove(raw, local)
  }

  /** What a call leaves of a file after others that have no effect on it but one: if there was a write
      before a removal, its last line is finished. */
  function EffectAfter(raw: string, job: EnvJob, wrote: bool, local: Question): string {
    if job.Clean? && wrote then Concat(Finish(Retained(raw, local))) else Effect(raw, job, local)
  }

  /** What the calls of a log leave if the file is not armed: the last one decides. */
  function Plainly(initial: Option<string>, log: seq<Commit<EnvJob>>, local: Question): Option<string> {
    if log == [] || (initial.None? && !Wrote(log)) then initial
    else Some(EffectAfter(TextOf(initial), log[|log| - 1].job, Wrote(log), local))
  }

  /** What the first healthy write of an armed file and the calls after it leave. */
  function FromFirst(raw: string, port: int, rest: seq<Commit<EnvJob>>, local: Question): Option<string> {
    var once := Some(Rewrite(raw, port, true, local));
    if Footprint(DotenvLaws.Read(raw), local) then Plainly(once, rest, local) else once
  }

  /** What the calls of any log leave. In an armed file the first healthy write turns the platform
      assignments on. From there a footprint is retired, and what follows works on the text of that
      write as on any other; malformed assignments make all later calls raise. */
  function Final(initial: Option<string>, log: seq<Commit<EnvJob>>, local: Question): Option<string> {
    var raw, k := TextOf(initial), FirstHealthy(log);
    if Raising(raw, local) then initial
    else if !Armed(raw, true, local) || k >= |log| - 1 then Plainly(initial, log, local)
    else FromFirst(raw, log[k].job.port, log[k + 1..], local)
  }

  // ---- one more call -----------------------------------------------------------------------------

  lemma Calls(file: Option<string>, job: EnvJob, local: Question)
    ensures EnvText(local)(job, file)
         == if Raising(TextOf(file), local) || (job.Clean? && file.None?) then None
            else Some(Effect(TextOf(file), job, local))
  {
  }

  /** A commit takes the file before it to what its call makes of it, or leaves it if that raises. */
  lemma Commits(initial: Option<string>, log: seq<Commit<EnvJob>>, local: Question)
    requires log != []
    ensures var before, job := Applied(EnvText(local), initial, log[..|log| - 1]), log[|log| - 1].job;
            Applied(EnvText(local), initial, log)
            == if Raising(TextOf(before), local) || (job.Clean? && before.None?) then before
               else Some(Effect(TextOf(before), job, local))
  {
    Calls(Applied(EnvText(local), initial, log[..|log| - 1]), log[|log| - 1].job, local);
  }

  lemma {:induction false} RaisingLog(initial: Option<string>, local: Question, log: seq<Commit<EnvJob>>)
    requires Raising(TextOf(initial), local)
    ensures Applied(EnvText(local), initial, log) == initial
  {
    if log != [] {
      RaisingLog(initial, local, log[..|log| - 1]);
      Commits(initial, log, local);
    }
  }

  lemma {:induction false} AppliedSplit<J>(apply: Update<J>, initial: Option<string>, log: seq<Commit<J>>, k: nat)
    requires k <= |log|
    ensures Applied(apply, initial, log) == Applied(apply, Applied(apply, initial, log[..k]), log[k..])
    decreases |log|
  {
    if k == |log| {
      assert log[..k] == log && log[k..] == [];
    } else {
      var n := |log| - 1;
      assert log[..n][..k] == log[..k] && log[..n][k..] == log[k..][..n - k] && log[k..][n - k] == log[n];
      AppliedSplit(apply, initial, log[..n], k);
    }
  }

  lemma AppliedThrough<J>(apply: Update<J>, initial: Option<string>, log: seq<Commit<J>>, k: nat,
                          middle: Option<string>, end: Option<string>)
    requires k <= |log| && Applied(apply, initial, log[..k]) == middle && Applied(apply, middle, log[k..]) == end
    ensures Applied(apply, initial, log) == end
  {
    AppliedSplit(apply, initial, log, k);
  }

  /** No call raises on the text, and they retain these lines of it. */
  predicate Keeps(text: string, kept: seq<string>, local: Question) {
    !Raising(text, local) && Retained(text, local) == kept
  }

  lemma KeptByWrite(raw: string, port: int, healthy: bool, local: Question)
    requires !Raising(raw, local) && !Armed(raw, healthy, local)
    ensures Keeps(Rewrite(raw, port, healthy, local), Finish(Retained(raw, local)), local)
  {
    RetainedAfterWrite(raw, port, healthy, local);
  }

  /** A removal leaves what is retained, and nothing that could raise. */
  lemma KeptByRemove(raw: string, local: Question)
    requires !Raising(raw, local)
    ensures Keeps(Remove(raw, local), Retained(raw, local), local)
  {
    var kept := Retained(raw, local);
    RemovedText(raw, local);
    RetainedFacts(raw, local);
    KeptSwitchedOff(kept);
    MigratesWhen(kept, local);
    KeepNone(kept, ManagedKeys());
  }

  lemma KeptSwitchedOff(kept: seq<string>)
    requires NoneAssigns(kept, ManagedKeys())
    ensures !Enabled(kept)
  {
    KeepNone(kept, ManagedKeys());
    ValuesKeep(kept, ManagedKeys(), "TOR_ENABLED");
    TruthyDigits();
  }

  /** A write and a removal depend on what is retained alone. */
  lemma ByRetained(raw: string, port: int, healthy: bool, local: Question)
    ensures Rewrite(raw, port, healthy, local)
         == Concat(Finish(Retained(raw, local))) + Concat(ManagedLines(port, healthy))
    ensures Remove(raw, local) == Concat(Retained(raw, local))
    ensures Finish(Finish(Retained(raw, local))) == Finish(Retained(raw, local))
  {
    TorVarsKeys(port, healthy);
    RetainedFacts(raw, local);
    FinishText(Retained(raw, local));
    FinishClosed(Retained(raw, local));
    RemovedText(raw, local);
  }

  // ---- files that are not armed, or not yet ------------------------------------------------------

  /** No write of the log turns anything on before its last call. */
  predicate Steady(raw: string, log: seq<Commit<EnvJob>>, local: Question) {
    !Raising(raw, local) && (!Armed(raw, true, local) || FirstHealthy(log) >= |log| - 1)
  }

  lemma WroteSnoc(log: seq<Commit<EnvJob>>)
    requires log != []
    ensures Wrote(log) <==> Wrote(log[..|log| - 1]) || log[|log| - 1].job.Write?
  {
    if Wrote(log[..|log| - 1]) {
      var i :| 0 <= i < |log| - 1 && log[..|log| - 1][i].job.Write?;
      assert log[i].job.Write?;
    }
    if Wrote(log) && !log[|log| - 1].job.Write? {
      var i :| 0 <= i < |log| && log[i].job.Write?;
      assert log[..|log| - 1][i].job.Write?;
    }
  }

  /** A write and then a removal leave what is retained, with its last line finished. */
  lemma KeptByBoth(raw: string, local: Question)
    requires !Raising(raw, local)
    ensures Keeps(Concat(Finish(Retained(raw, local))), Finish(Retained(raw, local)), local)
  {
    var once := Rewrite(raw, 0, false, local);
    KeptByWrite(raw, 0, false, local);
    KeptByRemove(once, local);
    ByRetained(once, 0, false, local);
  }

  function KeptLines(raw: string, wrote: bool, local: Question): seq<string> {
    if wrote then Finish(Retained(raw, local)) else Retained(raw, local)
  }

  /** What is retained of a text that such a call leaves. */
  lemma EffectKeeps(raw: string, job: EnvJob, wrote: bool, local: Question)
    requires !Raising(raw, local) && !Armed(raw, IsHealthy(job), local) && (job.Write? ==> wrote)
    ensures Keeps(EffectAfter(raw, job, wrote, local), KeptLines(raw, wrote, local), local)
  {
    if job.Write? {
      KeptByWrite(raw, job.port, job.healthy, local);
    } else if wrote {
      KeptByBoth(raw, local);
    } else {
      KeptByRemove(raw, local);
    }
  }

  lemma PlainlyKeeps(initial: Option<string>, log: seq<Commit<EnvJob>>, local: Question)
    requires !Raising(TextOf(initial), local)
    requires log != [] ==> !Armed(TextOf(initial), IsHealthy(log[|log| - 1].job), local)
    ensures Keeps(TextOf(Plainly(initial, log, local)), KeptLines(TextOf(initial), Wrote(log), local), local)
  {
    if log != [] && (initial.Some? || Wrote(log)) {
      WroteSnoc(log);
      EffectKeeps(TextOf(initial), log[|log| - 1].job, Wrote(log), local);
    }
  }

  /** A call on such a text has the effect it has on the initial one. */
  lemma EffectAgain(raw: string, text: string, job: EnvJob, wrote: bool, local: Question)
    requires Keeps(text, KeptLines(raw, wrote, local), local)
    ensures Effect(text, job, local) == EffectAfter(raw, job, wrote || job.Write?, local)
  {
    var port, healthy := if job.Write? then job.port else 0, job.Write? && job.healthy;
    ByRetained(text, port, healthy, local);
    ByRetained(raw, port, healthy, local);
  }

  lemma SteadyBefore(raw: string, log: seq<Commit<EnvJob>>, local: Question)
    requires log != [] && Steady(raw, log, local)
    ensures var before := log[..|log| - 1];
            Steady(raw, before, local) && (before != [] ==> !Armed(raw, IsHealthy(before[|before| - 1].job), local))
  {
    var before := log[..|log| - 1];
    assert before != [] ==> before[|before| - 1] == log[|log| - 2];
  }

  lemma {:induction false} PlainLog(initial: Option<string>, log: seq<Commit<EnvJob>>, local: Question)
    requires Steady(TextOf(initial), log, local)
    ensures Applied(EnvText(local), initial, log) == Plainly(initial, log, local)
    decreases |log|
  {
    if log != [] {
      var before, job := log[..|log| - 1], log[|log| - 1].job;
      SteadyBefore(TextOf(initial), log, local);
      PlainLog(initial, before, local);
      PlainlyKeeps(initial, before, local);
      Commits(initial, log, local);
      WroteSnoc(log);
      NoneWithoutWrite(initial, before, local);
      EffectAgain(TextOf(initial), TextOf(Plainly(initial, before, local)), job, Wrote(before), local);
    }
  }

  /** Removals alone leave a missing file missing. */
  lemma NoneWithoutWrite(initial: Option<string>, log: seq<Commit<EnvJob>>, local: Question)
    ensures Plainly(initial, log, local).None? <==> initial.None? && !Wrote(log)
  {
  }

  // ---- armed files ---------------------------------------------------------------------------------

  lemma FirstStays(log: seq<Commit<EnvJob>>, k: nat)
    requires k == FirstHealthy(log) < |log|
    ensures FirstHealthy(log[..k + 1]) == k && Wrote(log[..k + 1]) && log[..k + 1][k] == log[k]
  {
    assert IsHealthy(log[..k + 1][k].job);
    assert forall i | 0 <= i < k :: log[..k + 1][i] == log[i];
  }

  /** The first healthy write of an armed file. */
  lemma FirstHealthyWrite(initial: Option<string>, log: seq<Commit<EnvJob>>, local: Question, k: nat)
    requires Armed(TextOf(initial), true, local) && !Raising(TextOf(initial), local) && k == FirstHealthy(log) < |log|
    ensures Applied(EnvText(local), initial, log[..k + 1])
         == Some(Rewrite(TextOf(initial), log[k].job.port, true, local))
  {
    FirstStays(log, k);
    PlainLog(initial, log[..k + 1], local);
  }

  /** It leaves a file that raises, or one that is not armed any more. */
  lemma AfterArming(raw: string, port: int, local: Question)
    requires Armed(raw, true, local)
    ensures var once := Rewrite(raw, port, true, local);
            if Footprint(DotenvLaws.Read(raw), local) then !Raising(once, local) && !Armed(once, true, local)
            else Raising(once, local)
  {
    ArmedWrite(raw, port, true, local);
    WrittenFootprint(raw, port, true, local);
  }

  /** Nothing of the first healthy write but its effect on the footprint reaches a later one: its port does not. */
  lemma RetiredAlike(raw: string, p: int, q: int, port: int, healthy: bool, local: Question)
    requires Armed(raw, true, local) && Footprint(DotenvLaws.Read(raw), local)
    ensures Rewrite(Rewrite(raw, p, true, local), port, healthy, local)
         == Rewrite(Rewrite(raw, q, true, local), port, healthy, local)
    ensures Remove(Rewrite(raw, p, true, local), local) == Remove(Rewrite(raw, q, true, local), local)
  {
    RetainedAfterArming(raw, p, local);
    RetainedAfterArming(raw, q, local);
    ByRetained(Rewrite(raw, p, true, local), port, healthy, local);
    ByRetained(Rewrite(raw, q, true, local), port, healthy, local);
  }

  // ---- any number of gateways --------------------------------------------------------------------

  lemma AfterFirst(raw: string, port: int, rest: seq<Commit<EnvJob>>, local: Question)
    requires Armed(raw, true, local)
    ensures Applied(EnvText(local), Some(Rewrite(raw, port, true, local)), rest) == FromFirst(raw, port, rest, local)
  {
    var once := Some(Rewrite(raw, port, true, local));
    AfterArming(raw, port, local);
    if Footprint(DotenvLaws.Read(raw), local) {
      PlainLog(once, rest, local);
    } else {
      RaisingLog(once, local, rest);
    }
  }

  lemma ArmedLog(initial: Option<string>, log: seq<Commit<EnvJob>>, local: Question, k: nat)
    requires Armed(TextOf(initial), true, local) && !Raising(TextOf(initial), local) && k == FirstHealthy(log) < |log|
    ensures Applied(EnvText(local), initial, log) == FromFirst(TextOf(initial), log[k].job.port, log[k + 1..], local)
  {
    var raw, port := TextOf(initial), log[k].job.port;
    FirstHealthyWrite(initial, log, local, k);
    AfterFirst(raw, port, log[k + 1..], local);
    AppliedThrough(EnvText(local), initial, log, k + 1, Some(Rewrite(raw, port, true, local)),
                   FromFirst(raw, port, log[k + 1..], local));
  }

  lemma LogLeaves(initial: Option<string>, log: seq<Commit<EnvJob>>, local: Question)
    ensures Applied(EnvText(local), initial, log) == Final(initial, log, local)
  {
    var raw, k := TextOf(initial), FirstHealthy(log);
    if Raising(raw, local) {
      RaisingLog(initial, local, log);
    } else if Steady(raw, log, local) {
      PlainLog(initial, log, local);
    } else {
      ArmedLog(initial, log, local, k);
    }
  }

  /** Any number of gateways writing and cleaning one `.env` file, missing or not, failing or dying where
      they may: it is always what `Final` says of the committed calls in lock order. */
  lemma LastCallWins(initial: Option<string>, local: Question, actions: seq<Action<EnvJob>>)
    ensures var s := Run(EnvText(local), Start(initial), actions);
            Content(s) == Final(initial, s.log, local)
  {
    Serialized(EnvText(local), initial, actions);
    LogLeaves(initial, Run(EnvText(local), Start(initial), actions).log, local);
  }
}
