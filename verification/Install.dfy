/** Publishing a staging tree over an old one, with a backup to roll back to. */
module Install {

  /** What a path holds: nothing, a whole tree, or what a failed `rmtree` left of one. */
  datatype Slot<T> = Absent | Whole(tree: T) | Broken

  /** A rename takes full effect or none, and may raise either way. */
  datatype Rename = Renames | RaisesBefore | RaisesAfter

  /** What the system does to each step, should it be reached: clearing a stale backup, moving the old
      tree away, moving the new one in, rolling back, and purging the backup. */
  datatype Faults = Faults(clears: bool, away: Rename, into: Rename, back: Rename, purges: bool)

  datatype Snapshot<T> = Snapshot(staging: Slot<T>, destination: Slot<T>, backup: Slot<T>)

  /** The new tree is in staging or published, and until it is published the old one is whole. */
  predicate Protected<T(==)>(s: Snapshot<T>, former: Slot<T>, coming: Slot<T>) {
    && (s.staging == coming || s.destination == coming)
    && (s.destination == coming || s.destination == former || s.backup == former)
  }

  /** The failures after which the destination is empty although it was not before: the first rename
      raised after it had taken effect, so that nothing rolls it back, or the rollback failed too. */
  predicate Stranded(faults: Faults) {
    faults.away.RaisesAfter? || (faults.away.Renames? && faults.into.RaisesBefore? && faults.back.RaisesBefore?)
  }

  class Site<T(==)> {
    var staging: Slot<T>
    var destination: Slot<T>
    var backup: Slot<T>

    function Now(): Snapshot<T>
      reads this
    {
      Snapshot(staging, destination, backup)
    }

    /** `source.rename(target)` between two of the three places. */
    method MoveAway(outcome: Rename) returns (raised: bool)
      modifies this`destination, this`backup
      ensures raised == !outcome.Renames?
      ensures (destination, backup)
           == if outcome.RaisesBefore? then old((destination, backup)) else (Absent, old(destination))
    {
      if !outcome.RaisesBefore? {
        destination, backup := Absent, destination;
      }
      raised := !outcome.Renames?;
    }

    method MoveInto(outcome: Rename) returns (raised: bool)
      modifies this`staging, this`destination
      ensures raised == !outcome.Renames?
      ensures (staging, destination)
           == if outcome.RaisesBefore? then old((staging, destination)) else (Absent, old(staging))
    {
      if !outcome.RaisesBefore? {
        staging, destination := Absent, staging;
      }
      raised := !outcome.Renames?;
    }

    method MoveBack(outcome: Rename)
      modifies this`destination, this`backup
      ensures (destination, backup)
           == if outcome.RaisesBefore? then old((destination, backup)) else (old(backup), Absent)
    {
      if !outcome.RaisesBefore? {
        destination, backup := backup, Absent;
      }
    }

    /** `_atomic_install`. `trace` lists the states between its steps. */
    method AtomicInstall(faults: Faults) returns (raised: bool, ghost trace: seq<Snapshot<T>>)
      requires staging.Whole? && !destination.Broken?
      modifies this
      ensures forall i | 0 <= i < |trace| :: Protected(trace[i], old(destination), old(staging))
      ensures trace != [] && trace[|trace| - 1] == Now()
      ensures raised <==> !(&& (old(backup) == Absent || faults.clears)
                            && (old(destination) == Absent || (faults.away.Renames? && faults.purges))
                            && faults.into.Renames?)
      ensures !raised ==> Now() == Snapshot(Absent, old(staging), Absent)
      ensures (old(backup) == Absent || faults.clears) && old(destination) != Absent && faults.away.Renames?
              && faults.into.RaisesBefore? && !faults.back.RaisesBefore? ==>
                Now() == Snapshot(old(staging), old(destination), Absent)
      ensures destination in [old(destination), old(staging)]
         <==> !(old(destination).Whole? && (old(backup) == Absent || faults.clears) && Stranded(faults))
      ensures destination !in [old(destination), old(staging)] ==> backup == old(destination)
    {
      trace := [Now()];
      raised := true;
      if backup != Absent {
        backup := if faults.clears then Absent else Broken;
        trace := trace + [Now()];
        if !faults.clears {
          return;
        }
      }
      var oldMoved := false;
      var failed := false;
      if destination != Absent {
        failed := MoveAway(faults.away);
        trace := trace + [Now()];
        oldMoved := !failed;
      }
      if !failed {
        failed := MoveInto(faults.into);
        trace := trace + [Now()];
      }
      if failed {
        if oldMoved && destination == Absent {
          MoveBack(faults.back);
          trace := trace + [Now()];
        }
        return;
      }
      raised := false;
      if oldMoved {
        backup := if faults.purges then Absent else Broken;
        raised := !faults.purges;
        trace := trace + [Now()];
      }
    }
  }
}
