// The step-by-step protocol refines the whole call: a process that is not
// disturbed does to the file, and reports, what one call is specified to.
module RepositoryCalls {
  import opened Common
  import opened Configuration
  import opened ConfigRepository
  import opened RepositoryProtocol

  // The steps of one call up to the release of the lock.
  function Solo(p: nat, job: Job, synced: bool): (events: seq<Event>) {
    [Acquire(p, job), ReadFile(p), Advance(p), Advance(p), Advance(p), Advance(p), Advance(p), Advance(p), Sync(p, synced)]
  }

  lemma RunOne(k: Codec, s: State, events: seq<Event>, n: nat)
    requires n < |events|
    ensures Run(k, s, events[..n + 1]) == Step(k, Run(k, s, events[..n]), events[n])
  {
    assert events[..n + 1][..n] == events[..n];
  }

  // The state after the call has decided to install `target`, by stage.
  ghost function Prepared(s: State, p: nat, job: Job, before: Snapshot, target: Snapshot, stage: Stage): (after: State) {
    var temporary := TempFile(if Reached(stage, Written) then target.contents else [],
                              if Reached(stage, Moded) then target.mode else 384,
                              Reached(stage, Flushed));
    Enter(s, p, Staging(s.next, job, before, target, temporary, stage)).(holder := Some(p), next := s.next + 1)
  }

  lemma Advances(k: Codec, s: State, p: nat, job: Job, before: Snapshot, target: Snapshot, stage: Stage, after: Stage)
    requires Look(k, Visible(s)) == Some(before)
    requires Rank(after) == Rank(stage) + 1
    ensures Step(k, Prepared(s, p, job, before, target, stage), Advance(p)) == Prepared(s, p, job, before, target, after)
  {
    var prepared := Prepared(s, p, job, before, target, stage);
    assert Visible(prepared) == Visible(s);
    var phase := Prepared(s, p, job, before, target, after).phases[p];
    assert prepared.phases[p := phase] == s.phases[p := phase];
  }

  // The rename and the directory sync.
  lemma Installs(k: Codec, s: State, p: nat, job: Job, before: Snapshot, target: Snapshot, synced: bool)
    requires Look(k, Visible(s)) == Some(before)
    ensures var renamed := Step(k, Prepared(s, p, job, before, target, Rechecked), Advance(p));
            var after := Step(k, renamed, Sync(p, synced));
            && PhaseOf(after, p) == Leaving(s.next, job, Done(Change(before, target, !synced, p)))
            && Visible(after) == FileOf(target) && after.holder == Some(p)
  {
  }

  // What a process does once it is leaving has no effect until the release.
  lemma LeavingStays(k: Codec, s: State, p: nat, synced: bool)
    requires PhaseOf(s, p).Leaving?
    ensures Step(k, s, Advance(p)) == s && Step(k, s, Sync(p, synced)) == s
  {
  }

  // The faults of an undisturbed call: the directory sync may fail.
  function SyncFaults(synced: bool): (fails: set<Operation>) {
    if synced then {} else {SyncDirectory}
  }

  lemma NoCommitFaults(synced: bool)
    ensures SyncFaults(synced) * COMMITTING == {} && FirstRead !in SyncFaults(synced)
    ensures SyncDirectory in SyncFaults(synced) <==> !synced
  {
  }

  // After the lock and the first read.
  lemma Begins(k: Codec, s: State, p: nat, job: Job)
    requires s.holder.None? && PhaseOf(s, p).Idle?
    ensures var read := Step(k, Step(k, s, Acquire(p, job)), ReadFile(p));
            var found := Look(k, Visible(s));
            && read.holder == Some(p) && Visible(read) == Visible(s)
            && if found.Some? && Decide(k, p, job, found.value).Install?
               then read == Prepared(s, p, job, found.value, Decide(k, p, job, found.value).target, Created)
               else PhaseOf(read, p) == Leaving(s.next, job, Inside(k, p, job, Visible(s), {}).1)
  {
    var acquired := Step(k, s, Acquire(p, job));
    assert Visible(acquired) == Visible(s);
    var read := Step(k, acquired, ReadFile(p));
    assert acquired.phases[p := read.phases[p]] == s.phases[p := read.phases[p]];
  }

  function StageAt(n: nat): (stage: Stage)
    requires n < 6
    ensures Rank(stage) == n
  {
    if n == 0 then Created else if n == 1 then Written else if n == 2 then Moded
    else if n == 3 then Flushed else if n == 4 then Closed else Rechecked
  }

  // After n of its steps.
  ghost function After(k: Codec, s: State, p: nat, job: Job, synced: bool, n: nat): (after: State)
    requires n <= 9
  {
    Run(k, s, Solo(p, job, synced)[..n])
  }

  lemma AfterReading(k: Codec, s: State, p: nat, job: Job, synced: bool)
    ensures After(k, s, p, job, synced, 2) == Step(k, Step(k, s, Acquire(p, job)), ReadFile(p))
  {
    RunOne(k, s, Solo(p, job, synced), 0);
    RunOne(k, s, Solo(p, job, synced), 1);
  }

  // A call that installs goes through the stages one by one.
  lemma {:induction false} AfterAdvancing(k: Codec, s: State, p: nat, job: Job, synced: bool, before: Snapshot, target: Snapshot, n: nat)
    requires n < 6 && Look(k, Visible(s)) == Some(before)
    requires After(k, s, p, job, synced, 2) == Prepared(s, p, job, before, target, Created)
    ensures After(k, s, p, job, synced, n + 2) == Prepared(s, p, job, before, target, StageAt(n))
    decreases n
  {
    if n > 0 {
      AfterAdvancing(k, s, p, job, synced, before, target, n - 1);
      RunOne(k, s, Solo(p, job, synced), n + 1);
      Advances(k, s, p, job, before, target, StageAt(n - 1), StageAt(n));
    }
  }

  lemma AfterLast(k: Codec, s: State, p: nat, job: Job, synced: bool)
    ensures After(k, s, p, job, synced, 9) == Step(k, Step(k, After(k, s, p, job, synced, 7), Advance(p)), Sync(p, synced))
  {
    RunOne(k, s, Solo(p, job, synced), 7);
    RunOne(k, s, Solo(p, job, synced), 8);
  }

  lemma AfterInstalling(k: Codec, s: State, p: nat, job: Job, synced: bool, before: Snapshot, target: Snapshot)
    requires Look(k, Visible(s)) == Some(before)
    requires After(k, s, p, job, synced, 2) == Prepared(s, p, job, before, target, Created)
    ensures var after := After(k, s, p, job, synced, 9);
            && PhaseOf(after, p) == Leaving(s.next, job, Done(Change(before, target, !synced, p)))
            && Visible(after) == FileOf(target)
  {
    AfterAdvancing(k, s, p, job, synced, before, target, 5);
    AfterLast(k, s, p, job, synced);
    Installs(k, s, p, job, before, target, synced);
  }

  // A call that has nothing to install is done after the read.
  lemma {:induction false} AfterLeaving(k: Codec, s: State, p: nat, job: Job, synced: bool, n: nat)
    requires 2 <= n <= 9 && PhaseOf(After(k, s, p, job, synced, 2), p).Leaving?
    ensures After(k, s, p, job, synced, n) == After(k, s, p, job, synced, 2)
    decreases n
  {
    if n > 2 {
      AfterLeaving(k, s, p, job, synced, n - 1);
      RunOne(k, s, Solo(p, job, synced), n - 1);
      LeavingStays(k, After(k, s, p, job, synced, 2), p, synced);
    }
  }

  lemma Releases(k: Codec, s: State, p: nat, freed: bool)
    requires PhaseOf(s, p).Leaving?
    ensures var after := Step(k, s, Release(p, freed)); PhaseOf(after, p) == Idle && (freed ==> after.holder == None)
  {
  }

  // The refinement: from any state in which the lock is free, an undisturbed
  // call leaves the file and reports the outcome that the whole call is
  // specified to, for every job, and then gives the lock back.
  lemma SoloCallPerforms(k: Codec, s: State, p: nat, job: Job, synced: bool, freed: bool)
    requires s.holder.None? && PhaseOf(s, p).Idle?
    ensures var after := Run(k, s, Solo(p, job, synced));
            var (file, outcome) := Inside(k, p, job, Visible(s), SyncFaults(synced));
            && PhaseOf(after, p) == Leaving(s.next, job, outcome) && Visible(after) == file
            && PhaseOf(Step(k, after, Release(p, freed)), p) == Idle
            && (freed ==> Step(k, after, Release(p, freed)).holder == None)
  {
    assert Solo(p, job, synced)[..9] == Solo(p, job, synced);
    AfterReading(k, s, p, job, synced);
    Begins(k, s, p, job);
    NoCommitFaults(synced);
    var found := Look(k, Visible(s));
    if found.Some? && Decide(k, p, job, found.value).Install? {
      AfterInstalling(k, s, p, job, synced, found.value, Decide(k, p, job, found.value).target);
    } else {
      AfterLeaving(k, s, p, job, synced, 9);
    }
    Releases(k, After(k, s, p, job, synced, 9), p, freed);
  }

  // A process killed inside a call leaves the file as it is and the lock free,
  // so the next call of any process goes through.
  lemma KilledProcessBlocksNobody(k: Codec, s: State, p: nat, q: nat, job: Job, synced: bool)
    requires Inv(k, s) && s.holder == Some(p) && !PhaseOf(s, p).Idle?
    ensures var killed := Step(k, s, Kill(p));
            var (file, outcome) := Inside(k, q, job, Visible(s), SyncFaults(synced));
            var after := Run(k, killed, Solo(q, job, synced));
            PhaseOf(after, q) == Leaving(s.next, job, outcome) && Visible(after) == file
  {
    var killed := Step(k, s, Kill(p));
    if q != p { OthersIdle(k, s, p, q); }
    assert Visible(killed) == Visible(s);
    SoloCallPerforms(k, killed, q, job, synced, true);
  }
}
