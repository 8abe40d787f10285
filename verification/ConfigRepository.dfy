// Compare-and-swap changes to one configuration file: a lock, a temporary
// file, a recheck and a rename, with exact rollback.
module ConfigRepository {
  import opened Common
  import opened Configuration

  // What the configuration path names; the mode holds the permission bits.
  datatype Entry = Absent | Special | Regular(contents: Bytes, mode: nat)

  datatype Snapshot = Snapshot(config: Config, revision: Revision, contents: Bytes, mode: nat)

  // `provenance` identifies the repository that made the change.
  datatype Change = Change(before: Snapshot, after: Snapshot, warning: bool, provenance: nat)

  predicate Changed(c: Change) {
    c.before.revision != c.after.revision || c.before.mode != c.after.mode
  }

  datatype Error = Conflict(expected: Revision, actual: Revision) | Failure

  datatype Outcome = Failed(error: Error) | Done(change: Change)

  // The operations of the system that can fail during one call; the Cancelled
  // points are the places where the caller's context is consulted.
  datatype Operation =
    | CancelledAtLock | OpenLock | Flock | FirstRead
    | CancelledAtCommit | CreateTemp | WriteTemp | ChmodTemp | SyncTemp | CloseTemp | CancelledAfterClose
    | Recheck | CancelledBeforeRename | RenameTemp
    | RemoveTemp | SyncDirectory | ReleaseLock

  const LOCKING: set<Operation> := {CancelledAtLock, OpenLock, Flock}

  const COMMITTING: set<Operation> :=
    {CancelledAtCommit, CreateTemp, WriteTemp, ChmodTemp, SyncTemp, CloseTemp, CancelledAfterClose,
     Recheck, CancelledBeforeRename, RenameTemp}

  // No access for group and others.
  predicate OwnerOnly(mode: nat) {
    mode % 64 == 0
  }

  // That is: both lower permission digits are zero.
  lemma OwnerOnlyMeans(owner: nat, group: nat, others: nat)
    requires group < 8 && others < 8
    ensures OwnerOnly(owner * 64 + group * 8 + others) <==> group == 0 && others == 0
  {
  }

  // ------------------------------------------------------------ specification

  function Take(k: Codec, contents: Bytes, mode: nat): (s: Option<Snapshot>) {
    if |contents| > MAXIMUM_BYTES || k.decode(contents).None? then None
    else Some(Snapshot(k.decode(contents).value, k.digest(contents), contents, mode))
  }

  function Look(k: Codec, entry: Entry): (s: Option<Snapshot>) {
    if entry.Regular? then Take(k, entry.contents, entry.mode) else None
  }

  // The file a snapshot describes.
  function FileOf(s: Snapshot): (entry: Entry) {
    Regular(s.contents, s.mode)
  }

  datatype Job = Replacement(expected: Revision, config: Config) | Restoration(change: Change)

  datatype Decision = Refuse(error: Error) | Leave | Install(target: Snapshot)

  // What a call does with the file it found under the lock.
  function Decide(k: Codec, provenance: nat, job: Job, current: Snapshot): (d: Decision) {
    match job
    case Replacement(expected, config) =>
      if expected != current.revision then Refuse(Conflict(expected, current.revision))
      else if k.encode(config).None? || |k.encode(config).value| > MAXIMUM_BYTES then Refuse(Failure)
      else if k.encode(current.config).None? then Refuse(Failure)
      else if k.encode(config) == k.encode(current.config) then Leave
      else if !OwnerOnly(current.mode) then Refuse(Failure)
      else Prepared(k, k.encode(config).value, current.mode)
    case Restoration(change) =>
      if change.provenance != provenance then Refuse(Failure)
      else if change.after.revision != current.revision then Refuse(Conflict(change.after.revision, current.revision))
      else if current.mode != change.after.mode then Refuse(Failure)
      else if current.contents == change.before.contents && current.mode == change.before.mode then Leave
      else if !OwnerOnly(current.mode) || !OwnerOnly(change.before.mode) then Refuse(Failure)
      else Prepared(k, change.before.contents, change.before.mode)
  }

  function Prepared(k: Codec, contents: Bytes, mode: nat): (d: Decision) {
    var target := Take(k, contents, mode);
    if target.None? then Refuse(Failure) else Install(target.value)
  }

  function Inside(k: Codec, provenance: nat, job: Job, entry: Entry, fails: set<Operation>): (r: (Entry, Outcome)) {
    var found := Look(k, entry);
    if FirstRead in fails || found.None? then (entry, Failed(Failure))
    else
      match Decide(k, provenance, job, found.value)
      case Refuse(error) => (entry, Failed(error))
      case Leave => (entry, Done(Change(found.value, found.value, false, provenance)))
      case Install(target) =>
        if fails * COMMITTING != {} then (entry, Failed(Failure))
        else (FileOf(target), Done(Change(found.value, target, SyncDirectory in fails, provenance)))
  }

  // A failing release is a warning after a change and an error otherwise.
  function Finish(outcome: Outcome, released: bool): (r: Outcome) {
    if released then outcome
    else if outcome.Done? && Changed(outcome.change) then Done(outcome.change.(warning := true))
    else if outcome.Done? then Failed(Failure)
    else outcome
  }

  // One whole call without interference: the file afterwards and the result.
  function Perform(k: Codec, provenance: nat, job: Job, entry: Entry, fails: set<Operation>): (r: (Entry, Outcome)) {
    if fails * LOCKING != {} then (entry, Failed(Failure))
    else
      var (after, outcome) := Inside(k, provenance, job, entry, fails);
      (after, Finish(outcome, ReleaseLock !in fails))
  }

  // --------------------------------------------------------------- properties

  // A call without faults that decides to install does.
  lemma PerformInstalls(k: Codec, provenance: nat, job: Job, entry: Entry, current: Snapshot, target: Snapshot)
    requires Look(k, entry) == Some(current) && Decide(k, provenance, job, current) == Install(target)
    ensures var change := Change(current, target, false, provenance);
            Perform(k, provenance, job, entry, {}) == (FileOf(target), Done(change))
  {
  }

  // An installed target differs from the file it replaces.
  lemma InstallChanges(k: Codec, provenance: nat, job: Job, current: Snapshot)
    requires Lawful(k) && Take(k, current.contents, current.mode) == Some(current)
    requires Decide(k, provenance, job, current).Install?
    ensures var target := Decide(k, provenance, job, current).target;
            && Take(k, target.contents, target.mode) == Some(target)
            && (target.revision != current.revision || target.mode != current.mode)
  {
    var target := Decide(k, provenance, job, current).target;
    if job.Replacement? {
      assert k.decode(k.encode(job.config).value) == Some(job.config);
    }
    if target.revision == current.revision {
      SameRevision(k, target.contents, current.contents);
    }
  }

  // A call's result tells exactly what it did to the file: a failed call left
  // it alone, a done call took it from `before` to `after`, and the file is
  // different exactly if the change says so.
  lemma ResultTellsTheFile(k: Codec, provenance: nat, job: Job, entry: Entry, fails: set<Operation>)
    requires Lawful(k)
    ensures var (file, outcome) := Perform(k, provenance, job, entry, fails);
            && (outcome.Failed? ==> file == entry)
            && (outcome.Done? ==>
                  && Look(k, entry) == Some(outcome.change.before) && Look(k, file) == Some(outcome.change.after)
                  && (Changed(outcome.change) <==> file != entry)
                  && outcome.change.provenance == provenance)
  {
    var found := Look(k, entry);
    if found.Some? && Decide(k, provenance, job, found.value).Install? {
      InstallChanges(k, provenance, job, found.value);
    }
  }

  // A done replacement found the expected revision and leaves the requested
  // configuration in the file.
  lemma ReplaceInstallsTheConfig(k: Codec, provenance: nat, expected: Revision, config: Config,
                                 entry: Entry, fails: set<Operation>)
    requires Lawful(k)
    ensures var (file, outcome) := Perform(k, provenance, Replacement(expected, config), entry, fails);
            outcome.Done? ==>
              && outcome.change.before.revision == expected
              && outcome.change.after.config == config
              && (Changed(outcome.change) <==> outcome.change.before.config != config)
              && outcome.change.after.mode == outcome.change.before.mode
  {
    var found := Look(k, entry);
    if found.Some? && k.encode(config).Some? {
      assert k.decode(k.encode(config).value) == Some(config);
      if k.encode(config) == k.encode(found.value.config) {
        EncodingsDiffer(k, config, found.value.config);
      }
      if Decide(k, provenance, Replacement(expected, config), found.value).Install? {
        InstallChanges(k, provenance, Replacement(expected, config), found.value);
      }
    }
  }

  // Replacement is refused with a conflict exactly if the lock was taken, the
  // file could be read and its revision is not the expected one.
  lemma ConflictMeansOtherRevision(k: Codec, provenance: nat, expected: Revision, config: Config,
                                   entry: Entry, fails: set<Operation>)
    ensures var (file, outcome) := Perform(k, provenance, Replacement(expected, config), entry, fails);
            (outcome.Failed? && outcome.error.Conflict?) <==>
              (fails * LOCKING == {} && FirstRead !in fails && Look(k, entry).Some?
               && Look(k, entry).value.revision != expected)
    ensures var (file, outcome) := Perform(k, provenance, Replacement(expected, config), entry, fails);
            outcome.Failed? && outcome.error.Conflict? ==>
              outcome.error == Conflict(expected, Look(k, entry).value.revision)
  {
  }

  // A change carries a warning exactly if it was committed and the directory
  // sync or the release of the lock failed; a call that changed nothing is
  // done only if the lock was released.
  lemma WarningsAreExact(k: Codec, provenance: nat, job: Job, entry: Entry, fails: set<Operation>)
    requires Lawful(k)
    ensures var outcome := Perform(k, provenance, job, entry, fails).1;
            outcome.Done? ==>
              if Changed(outcome.change)
              then outcome.change.warning <==> SyncDirectory in fails || ReleaseLock in fails
              else !outcome.change.warning && ReleaseLock !in fails
  {
    var found := Look(k, entry);
    if found.Some? && Decide(k, provenance, job, found.value).Install? {
      InstallChanges(k, provenance, job, found.value);
    }
  }

  // A rollback without faults, right after a done call, restores the bytes
  // and the mode that the call found; rolling back the rollback restores what
  // the call installed.
  lemma RollbackInverts(k: Codec, provenance: nat, config: Config, expected: Revision, entry: Entry, fails: set<Operation>)
    requires Lawful(k)
    requires Perform(k, provenance, Replacement(expected, config), entry, fails).1.Done?
    ensures var (file, outcome) := Perform(k, provenance, Replacement(expected, config), entry, fails);
            var (restored, second) := Perform(k, provenance, Restoration(outcome.change), file, {});
            && restored == entry && second.Done?
            && second.change.before == outcome.change.after && second.change.after == outcome.change.before
            && Perform(k, provenance, Restoration(second.change), restored, {}) ==
               (file, Done(second.change.(before := second.change.after, after := second.change.before)))
  {
    ResultTellsTheFile(k, provenance, Replacement(expected, config), entry, fails);
    ReplaceInstallsTheConfig(k, provenance, expected, config, entry, fails);
  }

  // The change a rollback of `c` reports.
  function Reversed(c: Change): (r: Change) {
    Change(c.after, c.before, false, c.provenance)
  }

  lemma RestoresPrior(k: Codec, provenance: nat, change: Change)
    requires Lawful(k) && change.provenance == provenance && Changed(change)
    requires Take(k, change.before.contents, change.before.mode) == Some(change.before)
    requires Take(k, change.after.contents, change.after.mode) == Some(change.after)
    requires OwnerOnly(change.before.mode) && OwnerOnly(change.after.mode)
    ensures Perform(k, provenance, Restoration(change), FileOf(change.after), {}) ==
            (FileOf(change.before), Done(Reversed(change)))
  {
  }

  // A rollback leaves every revision alone except the one its change made,
  // and never acts on a change of another repository.
  lemma RollbackKeepsLaterUpdates(k: Codec, provenance: nat, change: Change, entry: Entry, fails: set<Operation>)
    requires Lawful(k)
    ensures var (file, outcome) := Perform(k, provenance, Restoration(change), entry, fails);
            file != entry ==>
              && change.provenance == provenance
              && Look(k, entry).Some? && Look(k, entry).value.revision == change.after.revision
              && Look(k, entry).value.mode == change.after.mode
              && file == Regular(change.before.contents, change.before.mode)
  {
  }

  // ------------------------------------------------------------ the repository

  datatype TempFile = TempFile(contents: Bytes, mode: nat, flushed: bool)

  class Disk {
    var entry: Entry
    var temporaries: map<nat, TempFile>
    var locked: bool

    constructor (entry: Entry)
      ensures this.entry == entry && temporaries == map[] && !locked
    {
      this.entry, temporaries, locked := entry, map[], false;
    }
  }

  class FileRepository {
    const codec: Codec
    const provenance: nat
    const disk: Disk

    constructor (codec: Codec, provenance: nat, disk: Disk)
      ensures this.codec == codec && this.provenance == provenance && this.disk == disk
    {
      this.codec, this.provenance, this.disk := codec, provenance, disk;
    }

    // Replaces the configuration if `expected` still identifies the file.
    method ReplaceContext(expected: Revision, config: Config, fails: set<Operation>) returns (outcome: Outcome)
      requires Lawful(codec) && !disk.locked
      modifies disk
      ensures (disk.entry, outcome) == Perform(codec, provenance, Replacement(expected, config), old(disk.entry), fails)
      ensures RemoveTemp !in fails ==> disk.temporaries == old(disk.temporaries)
      ensures !disk.locked
    {
      outcome := Mutate(Replacement(expected, config), fails);
    }

    // Restores what `change` replaced if its result is still in the file.
    method RollbackContext(change: Change, fails: set<Operation>) returns (outcome: Outcome)
      requires Lawful(codec) && !disk.locked
      modifies disk
      ensures (disk.entry, outcome) == Perform(codec, provenance, Restoration(change), old(disk.entry), fails)
      ensures RemoveTemp !in fails ==> disk.temporaries == old(disk.temporaries)
      ensures !disk.locked
    {
      outcome := Mutate(Restoration(change), fails);
    }

    method Mutate(job: Job, fails: set<Operation>) returns (outcome: Outcome)
      requires Lawful(codec) && !disk.locked
      modifies disk
      ensures (disk.entry, outcome) == Perform(codec, provenance, job, old(disk.entry), fails)
      ensures RemoveTemp !in fails ==> disk.temporaries == old(disk.temporaries)
      ensures !disk.locked
    {
      LockFaults(fails);
      if CancelledAtLock in fails || OpenLock in fails || Flock in fails { return Failed(Failure); }
      disk.locked := true;
      var current := Look(codec, disk.entry);
      if FirstRead in fails || current.None? {
        outcome := Failed(Failure);
      } else {
        match Decide(codec, provenance, job, current.value) {
          case Refuse(error) => outcome := Failed(error);
          case Leave => outcome := Done(Change(current.value, current.value, false, provenance));
          case Install(target) => outcome := Commit(current.value, target, fails);
        }
      }
      disk.locked := false;
      outcome := Finish(outcome, ReleaseLock !in fails);
    }

    // Writes the target beside the file, checks the file again and renames.
    method Commit(before: Snapshot, target: Snapshot, fails: set<Operation>) returns (outcome: Outcome)
      requires Look(codec, disk.entry) == Some(before)
      modifies disk`entry, disk`temporaries
      ensures var ok := fails * COMMITTING == {};
              && disk.entry == (if ok then FileOf(target) else old(disk.entry))
              && outcome == (if ok then Done(Change(before, target, SyncDirectory in fails, provenance))
                             else Failed(Failure))
      ensures RemoveTemp !in fails ==> disk.temporaries == old(disk.temporaries)
    {
      CommitFaults(fails);
      if CancelledAtCommit in fails || CreateTemp in fails { return Failed(Failure); }
      ghost var free := Above(disk.temporaries.Keys);
      assert free !in disk.temporaries;
      var name :| name !in disk.temporaries;
      var committed := false;
      outcome := Failed(Failure);
      disk.temporaries := disk.temporaries[name := TempFile([], 384, false)];
      if WriteTemp !in fails {
        disk.temporaries := disk.temporaries[name := TempFile(target.contents, 384, false)];
        if ChmodTemp !in fails {
          disk.temporaries := disk.temporaries[name := TempFile(target.contents, target.mode, false)];
          if SyncTemp !in fails {
            disk.temporaries := disk.temporaries[name := TempFile(target.contents, target.mode, true)];
            if CloseTemp !in fails && CancelledAfterClose !in fails && Recheck !in fails {
              var latest := Look(codec, disk.entry);
              if latest.Some? && latest.value.revision == before.revision && latest.value.mode == before.mode
                && CancelledBeforeRename !in fails && RenameTemp !in fails {
                var temporary := disk.temporaries[name];
                disk.entry := Regular(temporary.contents, temporary.mode);
                disk.temporaries := disk.temporaries - {name};
                committed := true;
                outcome := Done(Change(latest.value, target, SyncDirectory in fails, provenance));
              }
            }
          }
        }
      }
      if !committed && RemoveTemp !in fails {
        disk.temporaries := disk.temporaries - {name};
      }
    }
  }

  lemma CommitFaults(fails: set<Operation>)
    ensures fails * COMMITTING == {} <==>
            && CancelledAtCommit !in fails && CreateTemp !in fails && WriteTemp !in fails && ChmodTemp !in fails
            && SyncTemp !in fails && CloseTemp !in fails && CancelledAfterClose !in fails && Recheck !in fails
            && CancelledBeforeRename !in fails && RenameTemp !in fails
  {
    forall o | o in COMMITTING
      ensures fails * COMMITTING == {} ==> o !in fails
    {
      assert o in fails ==> o in fails * COMMITTING;
    }
  }

  lemma LockFaults(fails: set<Operation>)
    ensures fails * LOCKING == {} <==> CancelledAtLock !in fails && OpenLock !in fails && Flock !in fails
  {
    forall o | o in LOCKING
      ensures fails * LOCKING == {} ==> o !in fails
    {
      assert o in fails ==> o in fails * LOCKING;
    }
  }

  // Some name is not taken.
  lemma {:induction false} Above(names: set<nat>) returns (name: nat)
    ensures forall n | n in names :: n < name
    decreases names
  {
    name := 0;
    if names != {} {
      var taken :| taken in names;
      var rest := names - {taken};
      var above := Above(rest);
      name := if above <= taken then taken + 1 else above;
      forall n | n in names
        ensures n < name
      {
        assert n == taken || n in rest;
      }
    }
  }
}
