// Several processes changing one configuration file through the lock, with
// faults, killed processes, power loss and writers that ignore the lock.
module RepositoryProtocol {
  import opened Common
  import opened Configuration
  import opened ConfigRepository

  // ------------------------------------------------------------------ states

  // How far the temporary file of a call has come.
  datatype Stage = Created | Written | Moded | Flushed | Closed | Rechecked

  // Where a process stands in a call. The ticket numbers the calls.
  datatype Phase =
    | Idle
    | Holding(ticket: nat, job: Job)
    | Staging(ticket: nat, job: Job, before: Snapshot, target: Snapshot, temporary: TempFile, stage: Stage)
    | Renamed(ticket: nat, job: Job, change: Change)
    | Leaving(ticket: nat, job: Job, outcome: Outcome)

  // A file the configuration path may name, and whether its bytes are on disk.
  datatype Inode = Inode(entry: Entry, flushed: bool)

  datatype Author = Start | Outsider | Committed(ticket: nat, process: nat, job: Job, change: Change)

  datatype Record = Record(entry: Entry, author: Author)

  // `names` are the files that the path can name after a power loss: those
  // since the last directory sync, the visible one last. `history` lists
  // every file the path has named since the start or the last power loss.
  datatype State = State(
    holder: Option<nat>,
    phases: map<nat, Phase>,
    next: nat,
    names: seq<Inode>,
    history: seq<Record>)

  datatype Event =
    | Acquire(p: nat, job: Job)
    | ReadFile(p: nat)
    | Advance(p: nat)
    | Break(p: nat)
    | Sync(p: nat, ok: bool)
    | Release(p: nat, freed: bool)
    | Kill(p: nat)
    | PowerLoss(keep: nat, torn: Entry)
    | Outside(entry: Entry)

  function PhaseOf(s: State, p: nat): (phase: Phase) {
    if p in s.phases then s.phases[p] else Idle
  }

  function Visible(s: State): (entry: Entry) {
    if s.names == [] then Absent else s.names[|s.names| - 1].entry
  }

  function Initial(entry: Entry): (s: State) {
    State(None, map[], 0, [Inode(entry, true)], [Record(entry, Start)])
  }

  // ------------------------------------------------------------------- steps

  function Enter(s: State, p: nat, phase: Phase): (after: State) {
    s.(phases := s.phases[p := phase])
  }

  // The first read under the lock, and the decision.
  function Read(k: Codec, s: State, p: nat, ticket: nat, job: Job): (after: State) {
    var found := Look(k, Visible(s));
    if found.None? then Enter(s, p, Leaving(ticket, job, Failed(Failure)))
    else
      match Decide(k, p, job, found.value)
      case Refuse(error) => Enter(s, p, Leaving(ticket, job, Failed(error)))
      case Leave => Enter(s, p, Leaving(ticket, job, Done(Change(found.value, found.value, false, p))))
      case Install(target) =>
        Enter(s, p, Staging(ticket, job, found.value, target, TempFile([], 384, false), Created))
  }

  // The second read: the file must still be the one decided upon.
  function CheckAgain(k: Codec, s: State, p: nat, phase: Phase): (after: State)
    requires phase.Staging?
  {
    var latest := Look(k, Visible(s));
    if latest.None? then Enter(s, p, Leaving(phase.ticket, phase.job, Failed(Failure)))
    else if latest.value.revision != phase.before.revision then
      var conflict := Conflict(phase.before.revision, latest.value.revision);
      Enter(s, p, Leaving(phase.ticket, phase.job, Failed(conflict)))
    else if latest.value.mode != phase.before.mode then Enter(s, p, Leaving(phase.ticket, phase.job, Failed(Failure)))
    else Enter(s, p, phase.(before := latest.value, stage := Rechecked))
  }

  function Rename(s: State, p: nat, phase: Phase): (after: State)
    requires phase.Staging?
  {
    var entry := Regular(phase.temporary.contents, phase.temporary.mode);
    var change := Change(phase.before, phase.target, false, p);
    Enter(s, p, Renamed(phase.ticket, phase.job, change)).(
      names := s.names + [Inode(entry, phase.temporary.flushed)],
      history := s.history + [Record(entry, Committed(phase.ticket, p, phase.job, change))])
  }

  function Progress(k: Codec, s: State, p: nat, phase: Phase): (after: State)
    requires phase.Staging?
  {
    var temporary := phase.temporary;
    match phase.stage
    case Created => Enter(s, p, phase.(stage := Written, temporary := temporary.(contents := phase.target.contents)))
    case Written => Enter(s, p, phase.(stage := Moded, temporary := temporary.(mode := phase.target.mode)))
    case Moded => Enter(s, p, phase.(stage := Flushed, temporary := temporary.(flushed := true)))
    case Flushed => Enter(s, p, phase.(stage := Closed))
    case Closed => CheckAgain(k, s, p, phase)
    case Rechecked => Rename(s, p, phase)
  }

  function Step(k: Codec, s: State, e: Event): (after: State) {
    match e
    case Acquire(p, job) =>
      if s.holder.Some? || PhaseOf(s, p) != Idle then s
      else Enter(s, p, Holding(s.next, job)).(holder := Some(p), next := s.next + 1)
    case ReadFile(p) =>
      var phase := PhaseOf(s, p);
      if phase.Holding? then Read(k, s, p, phase.ticket, phase.job) else s
    case Advance(p) =>
      var phase := PhaseOf(s, p);
      if phase.Staging? then Progress(k, s, p, phase) else s
    case Break(p) =>
      // Any operation before the rename fails, or the context is cancelled.
      var phase := PhaseOf(s, p);
      if phase.Holding? || phase.Staging? then Enter(s, p, Leaving(phase.ticket, phase.job, Failed(Failure))) else s
    case Sync(p, ok) =>
      var phase := PhaseOf(s, p);
      if phase.Renamed? && s.names != [] then
        Enter(s, p, Leaving(phase.ticket, phase.job, Done(phase.change.(warning := !ok)))).(
          names := if ok then s.names[|s.names| - 1..] else s.names)
      else s
    case Release(p, freed) =>
      // A failing release may leave the lock taken.
      if PhaseOf(s, p).Leaving? then Enter(s, p, Idle).(holder := if freed then None else s.holder) else s
    case Kill(p) => Enter(s, p, Idle).(holder := if s.holder == Some(p) then None else s.holder)
    case PowerLoss(keep, torn) =>
      if keep < |s.names| then
        var entry := if s.names[keep].flushed then s.names[keep].entry else torn;
        Initial(entry).(next := s.next)
      else s
    case Outside(entry) =>
      s.(names := s.names + [Inode(entry, false)], history := s.history + [Record(entry, Outsider)])
  }

  function Run(k: Codec, s: State, events: seq<Event>): (after: State) {
    if events == [] then s else Step(k, Run(k, s, events[..|events| - 1]), events[|events| - 1])
  }

  // --------------------------------------------------------------- invariants

  // No commit belongs to the call.
  ghost predicate Fresh(s: State, ticket: nat) {
    forall i | 0 <= i < |s.history| ::
      s.history[i].author.Committed? ==> s.history[i].author.ticket != ticket
  }

  // The call committed exactly this change, once.
  ghost predicate Logged(s: State, ticket: nat, p: nat, job: Job, change: Change) {
    && (exists i | 0 <= i < |s.history| :: s.history[i].author == Committed(ticket, p, job, change.(warning := false)))
    && forall i, j | 0 <= i < j < |s.history| ::
         s.history[i].author.Committed? && s.history[j].author.Committed? && s.history[i].author.ticket == ticket ==>
           s.history[j].author.ticket != ticket
  }

  predicate Reached(stage: Stage, goal: Stage) {
    Rank(stage) >= Rank(goal)
  }

  function Rank(stage: Stage): (n: nat) {
    match stage
    case Created => 0 case Written => 1 case Moded => 2 case Flushed => 3 case Closed => 4 case Rechecked => 5
  }

  ghost predicate Prepares(k: Codec, s: State, p: nat, phase: Phase)
    requires phase.Staging?
  {
    && Take(k, phase.before.contents, phase.before.mode) == Some(phase.before)
    && Decide(k, p, phase.job, phase.before) == Install(phase.target)
    && (Reached(phase.stage, Written) ==> phase.temporary.contents == phase.target.contents)
    && (Reached(phase.stage, Moded) ==> phase.temporary.mode == phase.target.mode)
    && (Reached(phase.stage, Flushed) ==> phase.temporary.flushed)
    && (phase.stage == Rechecked ==> Visible(s) == FileOf(phase.before) || LastIsOutsider(s))
  }

  // A writer that ignores the lock made the visible file.
  predicate LastIsOutsider(s: State) {
    s.history != [] && s.history[|s.history| - 1].author.Outsider?
  }

  ghost predicate PhaseOk(k: Codec, s: State, p: nat, phase: Phase) {
    && (phase.Idle? || (s.holder == Some(p) && phase.ticket < s.next))
    && (phase.Holding? ==> Fresh(s, phase.ticket))
    && (phase.Staging? ==> Fresh(s, phase.ticket) && Prepares(k, s, p, phase))
    && (phase.Renamed? ==> Changed(phase.change) && Logged(s, phase.ticket, p, phase.job, phase.change))
    && (phase.Leaving? ==>
          if phase.outcome.Done? && Changed(phase.outcome.change)
          then Logged(s, phase.ticket, p, phase.job, phase.outcome.change)
          else Fresh(s, phase.ticket))
  }

  // Each file the path can still name is a complete generation of the
  // history, on disk unless an outsider wrote it.
  ghost predicate Named(s: State) {
    && 0 < |s.names| <= |s.history|
    && forall i | 0 <= i < |s.names| ::
         var record := s.history[|s.history| - |s.names| + i];
         s.names[i].entry == record.entry && (s.names[i].flushed || record.author.Outsider?)
  }

  ghost predicate Numbered(s: State) {
    forall i | 0 <= i < |s.history| :: s.history[i].author.Committed? ==> s.history[i].author.ticket < s.next
  }

  ghost predicate Inv(k: Codec, s: State) {
    && Named(s) && Numbered(s)
    && forall p :: PhaseOk(k, s, p, PhaseOf(s, p))
  }

  // -------------------------------------------------------------- preservation

  // Only the phase of p changed, and p held the lock.
  lemma EnterKeeps(k: Codec, s: State, p: nat, phase: Phase, after: State)
    requires Inv(k, s) && !PhaseOf(s, p).Idle?
    requires after == Enter(s, p, phase)
    requires PhaseOk(k, s, p, phase)
    ensures Inv(k, after)
  {
    forall q ensures PhaseOk(k, after, q, PhaseOf(after, q)) {
      assert PhaseOk(k, s, q, PhaseOf(s, q));
    }
  }

  lemma OthersIdle(k: Codec, s: State, p: nat, q: nat)
    requires Inv(k, s) && !PhaseOf(s, p).Idle? && q != p
    ensures PhaseOf(s, q).Idle?
  {
    assert PhaseOk(k, s, p, PhaseOf(s, p)) && PhaseOk(k, s, q, PhaseOf(s, q));
  }

  lemma AcquireKeeps(k: Codec, s: State, p: nat, job: Job)
    requires Inv(k, s)
    ensures Inv(k, Step(k, s, Acquire(p, job)))
  {
    var after := Step(k, s, Acquire(p, job));
    if s.holder.None? {
      forall q ensures PhaseOk(k, after, q, PhaseOf(after, q)) {
        assert PhaseOk(k, s, q, PhaseOf(s, q));
      }
    }
  }

  lemma ReadKeeps(k: Codec, s: State, p: nat)
    requires Lawful(k) && Inv(k, s)
    ensures Inv(k, Step(k, s, ReadFile(p)))
  {
    var phase := PhaseOf(s, p);
    assert PhaseOk(k, s, p, phase);
    if phase.Holding? {
      var after := Read(k, s, p, phase.ticket, phase.job);
      EnterKeeps(k, s, p, PhaseOf(after, p), after);
    }
  }

  lemma PrepareKeeps(k: Codec, s: State, p: nat)
    requires Lawful(k) && Inv(k, s)
    requires PhaseOf(s, p).Staging? && PhaseOf(s, p).stage != Rechecked
    ensures Inv(k, Step(k, s, Advance(p)))
  {
    var phase := PhaseOf(s, p);
    assert PhaseOk(k, s, p, phase);
    var after := Progress(k, s, p, phase);
    if phase.stage == Closed && Look(k, Visible(s)).Some? {
      var latest := Look(k, Visible(s)).value;
      if latest.revision == phase.before.revision {
        SameRevision(k, latest.contents, phase.before.contents);
      }
    }
    EnterKeeps(k, s, p, PhaseOf(after, p), after);
  }

  // What the rename records: the file it installs and the change it made.
  lemma RenameRecords(k: Codec, s: State, p: nat)
    requires Lawful(k) && Inv(k, s)
    requires PhaseOf(s, p).Staging? && PhaseOf(s, p).stage == Rechecked
    ensures var phase := PhaseOf(s, p);
            var after := Step(k, s, Advance(p));
            var change := Change(phase.before, phase.target, false, p);
            && PhaseOf(after, p) == Renamed(phase.ticket, phase.job, change) && Changed(change)
            && Visible(after) == FileOf(phase.target)
            && after.history == s.history + [Record(FileOf(phase.target), Committed(phase.ticket, p, phase.job, change))]
  {
    assert PhaseOk(k, s, p, PhaseOf(s, p));
    InstallChanges(k, p, PhaseOf(s, p).job, PhaseOf(s, p).before);
  }

  lemma RenameNames(k: Codec, s: State, p: nat)
    requires Inv(k, s) && PhaseOf(s, p).Staging? && PhaseOf(s, p).stage == Rechecked
    ensures Named(Step(k, s, Advance(p))) && Numbered(Step(k, s, Advance(p)))
  {
    assert PhaseOk(k, s, p, PhaseOf(s, p));
  }

  lemma FreshIsLogged(s: State, ticket: nat, p: nat, job: Job, change: Change, after: State)
    requires Fresh(s, ticket) && !change.warning
    requires after.history == s.history + [Record(Visible(after), Committed(ticket, p, job, change))]
    ensures Logged(after, ticket, p, job, change)
  {
    assert change.(warning := false) == change;
    assert after.history[|s.history|].author == Committed(ticket, p, job, change);
  }

  lemma RenameKeeps(k: Codec, s: State, p: nat)
    requires Lawful(k) && Inv(k, s)
    requires PhaseOf(s, p).Staging? && PhaseOf(s, p).stage == Rechecked
    ensures Inv(k, Step(k, s, Advance(p)))
  {
    var phase := PhaseOf(s, p);
    var after := Step(k, s, Advance(p));
    assert PhaseOk(k, s, p, phase);
    RenameRecords(k, s, p);
    RenameNames(k, s, p);
    FreshIsLogged(s, phase.ticket, p, phase.job, PhaseOf(after, p).change, after);
    forall q ensures PhaseOk(k, after, q, PhaseOf(after, q)) {
      if q != p { OthersIdle(k, s, p, q); }
    }
  }

  lemma BreakKeeps(k: Codec, s: State, p: nat)
    requires Inv(k, s)
    ensures Inv(k, Step(k, s, Break(p)))
  {
    var phase := PhaseOf(s, p);
    assert PhaseOk(k, s, p, phase);
    var after := Step(k, s, Break(p));
    if phase.Holding? || phase.Staging? { EnterKeeps(k, s, p, PhaseOf(after, p), after); }
  }

  lemma SyncKeeps(k: Codec, s: State, p: nat, ok: bool)
    requires Inv(k, s)
    ensures Inv(k, Step(k, s, Sync(p, ok)))
  {
    var phase := PhaseOf(s, p);
    assert PhaseOk(k, s, p, phase);
    if phase.Renamed? {
      var after := Step(k, s, Sync(p, ok));
      var entered := Enter(s, p, PhaseOf(after, p));
      EnterKeeps(k, s, p, PhaseOf(after, p), entered);
      forall q ensures PhaseOk(k, after, q, PhaseOf(after, q)) {
        assert PhaseOk(k, entered, q, PhaseOf(entered, q));
      }
    }
  }

  lemma ReleaseKeeps(k: Codec, s: State, e: Event)
    requires Inv(k, s) && (e.Release? || e.Kill?)
    ensures Inv(k, Step(k, s, e))
  {
    var after := Step(k, s, e);
    assert PhaseOk(k, s, e.p, PhaseOf(s, e.p));
    forall q ensures PhaseOk(k, after, q, PhaseOf(after, q)) {
      assert PhaseOk(k, s, q, PhaseOf(s, q));
    }
  }

  lemma InitialKeeps(k: Codec, entry: Entry, next: nat)
    ensures Inv(k, Initial(entry).(next := next))
  {
  }

  lemma OutsideKeepsPhase(k: Codec, s: State, entry: Entry, p: nat)
    requires Inv(k, s)
    ensures PhaseOk(k, Step(k, s, Outside(entry)), p, PhaseOf(s, p))
  {
    assert PhaseOk(k, s, p, PhaseOf(s, p));
    var phase := PhaseOf(s, p);
    var after := Step(k, s, Outside(entry));
    if phase.Renamed? { LoggedStays(s, phase.ticket, p, phase.job, phase.change, after); }
    if phase.Leaving? && phase.outcome.Done? && Changed(phase.outcome.change) {
      LoggedStays(s, phase.ticket, p, phase.job, phase.outcome.change, after);
    }
  }

  lemma LoggedStays(s: State, ticket: nat, p: nat, job: Job, change: Change, after: State)
    requires Logged(s, ticket, p, job, change)
    requires |after.history| == |s.history| + 1 && after.history[..|s.history|] == s.history
    requires after.history[|s.history|].author.Outsider?
    ensures Logged(after, ticket, p, job, change)
  {
    var i :| 0 <= i < |s.history| && s.history[i].author == Committed(ticket, p, job, change.(warning := false));
    assert forall j | 0 <= j < |s.history| :: after.history[j] == s.history[j];
  }

  lemma OutsideKeeps(k: Codec, s: State, entry: Entry)
    requires Inv(k, s)
    ensures Inv(k, Step(k, s, Outside(entry)))
  {
    var after := Step(k, s, Outside(entry));
    forall p ensures PhaseOk(k, after, p, PhaseOf(after, p)) {
      OutsideKeepsPhase(k, s, entry, p);
    }
  }

  // Every step keeps the invariant.
  lemma StepKeeps(k: Codec, s: State, e: Event)
    requires Lawful(k) && Inv(k, s)
    ensures Inv(k, Step(k, s, e))
  {
    match e
    case Acquire(p, job) => AcquireKeeps(k, s, p, job);
    case ReadFile(p) => ReadKeeps(k, s, p);
    case Advance(p) =>
      if PhaseOf(s, p).Staging? {
        if PhaseOf(s, p).stage == Rechecked { RenameKeeps(k, s, p); } else { PrepareKeeps(k, s, p); }
      }
    case Break(p) => BreakKeeps(k, s, p);
    case Sync(p, ok) => SyncKeeps(k, s, p, ok);
    case Release(_, _) => ReleaseKeeps(k, s, e);
    case Kill(_) => ReleaseKeeps(k, s, e);
    case PowerLoss(keep, torn) =>
      if keep < |s.names| {
        InitialKeeps(k, if s.names[keep].flushed then s.names[keep].entry else torn, s.next);
      }
    case Outside(entry) => OutsideKeeps(k, s, entry);
  }

  lemma {:induction false} RunKeeps(k: Codec, entry: Entry, events: seq<Event>)
    requires Lawful(k)
    ensures Inv(k, Run(k, Initial(entry), events))
    decreases |events|
  {
    if events == [] {
      InitialKeeps(k, entry, 0);
      assert Initial(entry).(next := 0) == Initial(entry);
    } else {
      RunKeeps(k, entry, events[..|events| - 1]);
      StepKeeps(k, Run(k, Initial(entry), events[..|events| - 1]), events[|events| - 1]);
    }
  }

  // ------------------------------------------------------------ main theorems

  // At most one process is inside a call.
  lemma CallsExclude(k: Codec, entry: Entry, events: seq<Event>, p: nat, q: nat)
    requires Lawful(k)
    ensures var s := Run(k, Initial(entry), events);
            !PhaseOf(s, p).Idle? && !PhaseOf(s, q).Idle? ==> p == q
  {
    RunKeeps(k, entry, events);
    var s := Run(k, Initial(entry), events);
    if p != q && !PhaseOf(s, p).Idle? { OthersIdle(k, s, p, q); }
  }

  // The record at `i` is the atomic effect of its call on the file before it.
  ghost predicate Links(k: Codec, history: seq<Record>, i: nat)
    requires i < |history|
  {
    var author := history[i].author;
    author.Committed? ==>
      && i > 0 && Changed(author.change)
      && Inside(k, author.process, author.job, history[i - 1].entry, {}) == (history[i].entry, Done(author.change))
  }

  ghost predicate Chained(k: Codec, history: seq<Record>) {
    forall i | 0 <= i < |history| :: Links(k, history, i)
  }

  lemma ChainExtends(k: Codec, history: seq<Record>, record: Record)
    ensures Chained(k, history + [record]) <==> Chained(k, history) && Links(k, history + [record], |history|)
  {
    var longer := history + [record];
    forall i | 0 <= i < |history|
      ensures Links(k, history, i) <==> Links(k, longer, i)
    {
    }
    if Chained(k, longer) {
      forall i | 0 <= i < |history| ensures Links(k, history, i) { assert Links(k, longer, i); }
    }
  }

  // The rename is the atomic effect of the whole call exactly if the path
  // still names the file that the call decided upon.
  lemma RenameLinks(k: Codec, s: State, p: nat)
    requires Lawful(k) && Inv(k, s)
    requires PhaseOf(s, p).Staging? && PhaseOf(s, p).stage == Rechecked
    ensures var after := Step(k, s, Advance(p));
            Links(k, after.history, |s.history|) <==> Visible(s) == FileOf(PhaseOf(s, p).before)
  {
    var phase := PhaseOf(s, p);
    assert PhaseOk(k, s, p, phase);
    RenameRecords(k, s, p);
    assert Visible(s) == s.history[|s.history| - 1].entry;
    ResultTellsTheFile(k, p, phase.job, Visible(s), {});
  }

  // The step is not a rename over a file other than the one decided upon.
  predicate Timely(s: State, e: Event) {
    e.Advance? ==>
      var phase := PhaseOf(s, e.p);
      phase.Staging? && phase.stage == Rechecked ==> Visible(s) == FileOf(phase.before)
  }

  predicate LosesPower(s: State, e: Event) {
    e.PowerLoss? && e.keep < |s.names|
  }

  // Since the last power loss every rename found the file decided upon.
  predicate Undisturbed(k: Codec, s: State, events: seq<Event>) {
    if events == [] then true
    else
      var earlier, e := events[..|events| - 1], events[|events| - 1];
      LosesPower(Run(k, s, earlier), e) || (Undisturbed(k, s, earlier) && Timely(Run(k, s, earlier), e))
  }

  lemma StepChains(k: Codec, s: State, e: Event)
    requires Lawful(k) && Inv(k, s)
    ensures LosesPower(s, e) ==> Chained(k, Step(k, s, e).history)
    ensures !LosesPower(s, e) ==> (Chained(k, Step(k, s, e).history) <==> Chained(k, s.history) && Timely(s, e))
  {
    var after := Step(k, s, e);
    if e.Advance? && PhaseOf(s, e.p).Staging? && PhaseOf(s, e.p).stage == Rechecked {
      RenameRecords(k, s, e.p);
      RenameLinks(k, s, e.p);
      ChainExtends(k, s.history, after.history[|s.history|]);
    } else if e.Outside? {
      ChainExtends(k, s.history, Record(e.entry, Outsider));
    }
  }

  // In every run, with whatever outsiders do, the committed changes since the
  // last power loss form a chain if and only if every rename found the file
  // that its call had decided upon.
  lemma {:induction false} RunsChainExactly(k: Codec, entry: Entry, events: seq<Event>)
    requires Lawful(k)
    ensures Chained(k, Run(k, Initial(entry), events).history) <==> Undisturbed(k, Initial(entry), events)
    decreases |events|
  {
    if events != [] {
      var earlier := events[..|events| - 1];
      RunsChainExactly(k, entry, earlier);
      RunKeeps(k, entry, earlier);
      StepChains(k, Run(k, Initial(entry), earlier), events[|events| - 1]);
    }
  }

  // Only a writer that ignores the lock can come between: if a rename is not
  // timely, an outsider made the file that it is about to overwrite.
  lemma OnlyOutsidersDisturb(k: Codec, entry: Entry, events: seq<Event>, p: nat)
    requires Lawful(k)
    requires !Timely(Run(k, Initial(entry), events), Advance(p))
    ensures LastIsOutsider(Run(k, Initial(entry), events))
  {
    RunKeeps(k, entry, events);
    var s := Run(k, Initial(entry), events);
    assert PhaseOk(k, s, p, PhaseOf(s, p));
  }

  // In a chain each commit found what the record before it left, its outcome
  // is that of one uninterrupted call, and its `after` is the file from then
  // on; so no update is lost.
  lemma CommitsChain(k: Codec, entry: Entry, events: seq<Event>, i: nat)
    requires Lawful(k) && Undisturbed(k, Initial(entry), events)
    requires i < |Run(k, Initial(entry), events).history|
    requires Run(k, Initial(entry), events).history[i].author.Committed?
    ensures var history := Run(k, Initial(entry), events).history;
            var author := history[i].author;
            && i > 0
            && Look(k, history[i - 1].entry) == Some(author.change.before)
            && history[i].entry == FileOf(author.change.after)
            && (history[i - 1].author.Committed? ==> author.change.before == history[i - 1].author.change.after)
            && Perform(k, author.process, author.job, history[i - 1].entry, {}) == (history[i].entry, Done(author.change))
  {
    RunsChainExactly(k, entry, events);
    var history := Run(k, Initial(entry), events).history;
    assert Links(k, history, i);
    assert Links(k, history, i - 1);
    var author := history[i].author;
    ResultTellsTheFile(k, author.process, author.job, history[i - 1].entry, {});
    if history[i - 1].author.Committed? {
      var earlier := history[i - 1].author;
      ResultTellsTheFile(k, earlier.process, earlier.job, history[i - 2].entry, {});
    }
  }

  // A call that ends with an error, or without a change, committed nothing; a
  // call that ends with a change committed exactly that change, once.
  lemma ResultsAreHonest(k: Codec, entry: Entry, events: seq<Event>, p: nat)
    requires Lawful(k)
    requires PhaseOf(Run(k, Initial(entry), events), p).Leaving?
    ensures var s := Run(k, Initial(entry), events);
            var phase := PhaseOf(s, p);
            if phase.outcome.Done? && Changed(phase.outcome.change)
            then Logged(s, phase.ticket, p, phase.job, phase.outcome.change)
            else Fresh(s, phase.ticket)
  {
    RunKeeps(k, entry, events);
    var s := Run(k, Initial(entry), events);
    assert PhaseOk(k, s, p, PhaseOf(s, p));
  }

  lemma NamesAreGenerations(k: Codec, s: State, keep: nat, torn: Entry)
    requires Named(s) && keep < |s.names|
    ensures var i := |s.history| - |s.names| + keep;
            && 0 <= i < |s.history|
            && (!s.history[i].author.Outsider? ==>
                  Visible(Step(k, s, PowerLoss(keep, torn))) == s.history[i].entry)
            && (keep == |s.names| - 1 ==> s.history[i].entry == Visible(s))
  {
    var i := |s.history| - |s.names| + keep;
    assert s.names[keep].entry == s.history[i].entry;
  }

  // A power loss at any moment leaves a complete generation: the visible file
  // or one that the path named since the last directory sync, unless an
  // outsider wrote the file it falls back to.
  lemma PowerLossLeavesAGeneration(k: Codec, entry: Entry, events: seq<Event>, keep: nat, torn: Entry)
    requires Lawful(k)
    requires keep < |Run(k, Initial(entry), events).names|
    ensures var s := Run(k, Initial(entry), events);
            var i := |s.history| - |s.names| + keep;
            && 0 <= i < |s.history|
            && (!s.history[i].author.Outsider? ==>
                  Visible(Step(k, s, PowerLoss(keep, torn))) == s.history[i].entry)
            && (keep == |s.names| - 1 ==> s.history[i].entry == Visible(s))
  {
    RunNames(k, entry, events);
    NamesAreGenerations(k, Run(k, Initial(entry), events), keep, torn);
  }

  lemma RunNames(k: Codec, entry: Entry, events: seq<Event>)
    requires Lawful(k)
    ensures Named(Run(k, Initial(entry), events))
  {
    RunKeeps(k, entry, events);
  }

  // ------------------------------------------------------------- durability

  // How far the history is settled: a power loss cannot go back before it.
  function Settled(s: State): (i: int) {
    |s.history| - |s.names|
  }

  // Without a power loss nothing settled becomes unsettled and nothing
  // recorded is forgotten.
  lemma StepSettles(k: Codec, s: State, e: Event)
    requires Named(s) && !e.PowerLoss?
    ensures var after := Step(k, s, e);
            && Settled(s) <= Settled(after)
            && |s.history| <= |after.history| && after.history[..|s.history|] == s.history
  {
  }

  lemma {:induction false} RunSettles(k: Codec, s: State, events: seq<Event>)
    requires Lawful(k) && Inv(k, s) && forall e | e in events :: !e.PowerLoss?
    ensures var t := Run(k, s, events);
            && Inv(k, t) && Settled(s) <= Settled(t)
            && |s.history| <= |t.history| && t.history[..|s.history|] == s.history
    decreases |events|
  {
    if events != [] {
      var earlier, e := events[..|events| - 1], events[|events| - 1];
      RunSettles(k, s, earlier);
      assert e in events;
      var t := Run(k, s, earlier);
      StepSettles(k, t, e);
      StepKeeps(k, t, e);
      assert Step(k, t, e).history[..|t.history|][..|s.history|] == Step(k, t, e).history[..|s.history|];
    }
  }

  // Durability: once the directory sync of a commit has succeeded, a power
  // loss at the end of any later run finds that commit or a file that the
  // path named after it, complete unless an outsider wrote it.
  lemma SyncedCommitSurvives(k: Codec, entry: Entry, before: seq<Event>, p: nat, later: seq<Event>, keep: nat, torn: Entry)
    requires Lawful(k) && PhaseOf(Run(k, Initial(entry), before), p).Renamed?
    requires forall e | e in later :: !e.PowerLoss?
    requires keep < |Run(k, Step(k, Run(k, Initial(entry), before), Sync(p, true)), later).names|
    ensures var s := Run(k, Initial(entry), before);
            var t := Run(k, Step(k, s, Sync(p, true)), later);
            var phase := PhaseOf(s, p);
            var i := Settled(t) + keep;
            && Logged(s, phase.ticket, p, phase.job, phase.change)
            && |s.history| - 1 <= i < |t.history| && t.history[..|s.history|] == s.history
            && (!t.history[i].author.Outsider? ==> Visible(Step(k, t, PowerLoss(keep, torn))) == t.history[i].entry)
  {
    RunKeeps(k, entry, before);
    var s := Run(k, Initial(entry), before);
    SyncSettles(k, s, p);
    LossAfterSettling(k, Step(k, s, Sync(p, true)), later, keep, torn);
  }

  // The directory sync settles the visible file and all before it.
  lemma SyncSettles(k: Codec, s: State, p: nat)
    requires Lawful(k) && Inv(k, s) && PhaseOf(s, p).Renamed?
    ensures var synced := Step(k, s, Sync(p, true));
            && Inv(k, synced) && Settled(synced) == |s.history| - 1 && synced.history == s.history
            && Logged(s, PhaseOf(s, p).ticket, p, PhaseOf(s, p).job, PhaseOf(s, p).change)
  {
    assert PhaseOk(k, s, p, PhaseOf(s, p));
    StepKeeps(k, s, Sync(p, true));
  }

  lemma LossAfterSettling(k: Codec, s: State, later: seq<Event>, keep: nat, torn: Entry)
    requires Lawful(k) && Inv(k, s) && forall e | e in later :: !e.PowerLoss?
    requires keep < |Run(k, s, later).names|
    ensures var t := Run(k, s, later);
            var i := Settled(t) + keep;
            && 0 <= Settled(s) <= i < |t.history|
            && |s.history| <= |t.history| && t.history[..|s.history|] == s.history
            && (!t.history[i].author.Outsider? ==> Visible(Step(k, t, PowerLoss(keep, torn))) == t.history[i].entry)
  {
    RunSettles(k, s, later);
    NamesAreGenerations(k, Run(k, s, later), keep, torn);
  }

  // A commit is one step: it adds the complete new file, already on disk, to
  // the files the path can name, and no other step of a call adds any.
  lemma CommitAddsOneName(k: Codec, s: State, p: nat)
    requires Lawful(k) && Inv(k, s)
    ensures var after := Step(k, s, Advance(p));
            after.names == s.names ||
            (after.names == s.names + [Inode(Visible(after), true)] && PhaseOf(after, p).Renamed?
             && (Timely(s, Advance(p)) ==> Look(k, Visible(s)) == Some(PhaseOf(after, p).change.before))
             && Look(k, Visible(after)) == Some(PhaseOf(after, p).change.after))
  {
    var phase := PhaseOf(s, p);
    assert PhaseOk(k, s, p, phase);
    if phase.Staging? && phase.stage == Rechecked {
      RenameRecords(k, s, p);
      InstallChanges(k, p, phase.job, phase.before);
    }
  }

  // ---------------------------------------------------------------- the gap

  // Nobody writes past the lock between a recheck and the rename after it.
  ghost predicate Considerate(k: Codec, s: State, events: seq<Event>) {
    events == [] ||
    (Considerate(k, s, events[..|events| - 1]) &&
     (events[|events| - 1].Outside? ==> NobodyRechecked(Run(k, s, events[..|events| - 1]))))
  }

  ghost predicate NobodyRechecked(s: State) {
    forall p :: !(PhaseOf(s, p).Staging? && PhaseOf(s, p).stage == Rechecked)
  }

  // Every rechecked process still finds its file.
  ghost predicate AllTimely(s: State) {
    forall p :: Timely(s, Advance(p))
  }

  // Steps that neither advance a call nor write past the lock, nor lose
  // power, leave the visible file alone and bring nobody to the gap.
  lemma QuietVisible(k: Codec, s: State, e: Event)
    requires s.names != [] && !e.Outside? && !e.PowerLoss? && !e.Advance?
    ensures Visible(Step(k, s, e)) == Visible(s)
  {
    if e.Sync? {
      var last := s.names[|s.names| - 1..];
      assert |last| == 1 && last[0] == s.names[|s.names| - 1];
    } else {
      QuietNames(k, s, e);
    }
  }

  lemma QuietNames(k: Codec, s: State, e: Event)
    requires !e.Outside? && !e.PowerLoss? && !e.Advance? && !e.Sync?
    ensures Step(k, s, e).names == s.names
  {
  }

  lemma QuietPhase(k: Codec, s: State, e: Event, p: nat)
    requires !e.Outside? && !e.PowerLoss? && !e.Advance?
    ensures var phase := PhaseOf(Step(k, s, e), p);
            phase == PhaseOf(s, p) || !phase.Staging? || phase.stage != Rechecked
  {
  }

  lemma AdvanceStep(k: Codec, s: State, q: nat, p: nat)
    requires Lawful(k) && Inv(k, s) && AllTimely(s)
    ensures Timely(Step(k, s, Advance(q)), Advance(p))
  {
    assert Timely(s, Advance(p));
    var phase := PhaseOf(s, q);
    if phase.Staging? {
      if p != q {
        OthersIdle(k, s, q, p);
      } else if phase.stage == Closed {
        CheckedFile(k, s, p, phase);
      }
    }
  }

  // A recheck that passes remembers the visible file.
  lemma CheckedFile(k: Codec, s: State, p: nat, phase: Phase)
    requires phase.Staging?
    ensures var after := CheckAgain(k, s, p, phase);
            PhaseOf(after, p).Staging? ==> Visible(after) == FileOf(PhaseOf(after, p).before)
  {
  }

  lemma ConsiderateStep(k: Codec, s: State, e: Event, p: nat)
    requires Lawful(k) && Inv(k, s) && AllTimely(s) && (e.Outside? ==> NobodyRechecked(s))
    ensures Timely(Step(k, s, e), Advance(p))
  {
    assert Timely(s, Advance(p));
    match e
    case Advance(q) => AdvanceStep(k, s, q, p);
    case Outside(_) =>
    case PowerLoss(_, _) =>
    case _ =>
      QuietVisible(k, s, e);
      QuietPhase(k, s, e, p);
  }

  // Keeping out of the gap is enough for the chain.
  lemma {:induction false} ConsiderateRunsChain(k: Codec, entry: Entry, events: seq<Event>)
    requires Lawful(k) && Considerate(k, Initial(entry), events)
    ensures AllTimely(Run(k, Initial(entry), events)) && Undisturbed(k, Initial(entry), events)
    decreases |events|
  {
    if events != [] {
      var earlier, e := events[..|events| - 1], events[|events| - 1];
      ConsiderateRunsChain(k, entry, earlier);
      RunKeeps(k, entry, earlier);
      var s := Run(k, Initial(entry), earlier);
      assert e.Advance? ==> Timely(s, Advance(e.p));
      forall p ensures Timely(Step(k, s, e), Advance(p)) { ConsiderateStep(k, s, e, p); }
    }
  }

  lemma RunAppend(k: Codec, s: State, events: seq<Event>, e: Event)
    ensures Run(k, s, events + [e]) == Step(k, Run(k, s, events), e)
    ensures Undisturbed(k, s, events + [e]) <==>
            LosesPower(Run(k, s, events), e) || (Undisturbed(k, s, events) && Timely(Run(k, s, events), e))
  {
    assert (events + [e])[..|events|] == events;
  }

  const FIRST: Entry := Regular([1], 384)

  // A process alone with the lock and the first file, in the given phase.
  function Alone(phase: Phase): (s: State) {
    State(Some(0), map[0 := phase], 1, [Inode(FIRST, true)], [Record(FIRST, Start)])
  }

  // The call that replaces the first small configuration by the second.
  const JOB: Job := Replacement(Spell([1]), Plain(2))

  function StageAt(contents: Bytes, flushed: bool, stage: Stage): (phase: Phase) {
    Phase.Staging(0, JOB, Snapshot(Plain(1), Spell([1]), [1], 384), Snapshot(Plain(2), Spell([2]), [2], 384),
                  TempFile(contents, 384, flushed), stage)
  }

  lemma AloneAdvances(contents: Bytes, flushed: bool, stage: Stage)
    requires stage != Rechecked
    ensures Step(SmallCodec(), Alone(StageAt(contents, flushed, stage)), Advance(0)) ==
            match stage
            case Created => Alone(StageAt([2], flushed, Written))
            case Written => Alone(StageAt(contents, flushed, Moded))
            case Moded => Alone(StageAt(contents, true, Flushed))
            case Flushed => Alone(StageAt(contents, flushed, Closed))
            case Closed => Alone(StageAt(contents, flushed, Rechecked))
  {
    var s := Alone(StageAt(contents, flushed, stage));
    assert PhaseOf(s, 0) == StageAt(contents, flushed, stage);
    assert forall phase :: s.phases[0 := phase] == map[0 := phase];
  }

  lemma AloneStarts()
    ensures var k := SmallCodec();
            && Step(k, Initial(FIRST), Acquire(0, JOB)) == Alone(Phase.Holding(0, JOB))
            && Step(k, Alone(Phase.Holding(0, JOB)), ReadFile(0)) == Alone(StageAt([], false, Created))
  {
    var k := SmallCodec();
    var current, target := Snapshot(Plain(1), Spell([1]), [1], 384), Snapshot(Plain(2), Spell([2]), [2], 384);
    assert Look(k, FIRST) == Some(current);
    assert Decide(k, 0, JOB, current) == Install(target);
    var s := Alone(Phase.Holding(0, JOB));
    assert forall phase :: s.phases[0 := phase] == map[0 := phase];
  }

  // Taking the lock, reading, and so many steps of the commit.
  function Poised(n: nat): (events: seq<Event>) {
    if n == 0 then [Acquire(0, JOB)] + [ReadFile(0)] else Poised(n - 1) + [Advance(0)]
  }

  lemma PoisedStarts()
    ensures var k := SmallCodec();
            Run(k, Initial(FIRST), Poised(0)) == Alone(StageAt([], false, Created)) && Undisturbed(k, Initial(FIRST), Poised(0))
  {
    var k := SmallCodec();
    AloneStarts();
    RunAppend(k, Initial(FIRST), [], Acquire(0, JOB));
    assert [] + [Acquire(0, JOB)] == [Acquire(0, JOB)];
    RunAppend(k, Initial(FIRST), [Acquire(0, JOB)], ReadFile(0));
  }

  lemma PoisedAdvances(n: nat, contents: Bytes, flushed: bool, stage: Stage)
    requires stage != Rechecked && Run(SmallCodec(), Initial(FIRST), Poised(n)) == Alone(StageAt(contents, flushed, stage))
    requires Undisturbed(SmallCodec(), Initial(FIRST), Poised(n))
    ensures Run(SmallCodec(), Initial(FIRST), Poised(n + 1)) ==
            Step(SmallCodec(), Alone(StageAt(contents, flushed, stage)), Advance(0))
    ensures Undisturbed(SmallCodec(), Initial(FIRST), Poised(n + 1))
  {
    RunAppend(SmallCodec(), Initial(FIRST), Poised(n), Advance(0));
  }

  // A run that stands between the recheck and the rename.
  lemma PoisedIsRechecked()
    ensures var k := SmallCodec();
            && Run(k, Initial(FIRST), Poised(5)) == Alone(StageAt([2], true, Rechecked))
            && Undisturbed(k, Initial(FIRST), Poised(5))
  {
    PoisedStarts();
    PoisedAdvances(0, [], false, Created);
    AloneAdvances([], false, Created);
    PoisedAdvances(1, [2], false, Written);
    AloneAdvances([2], false, Written);
    PoisedAdvances(2, [2], false, Moded);
    AloneAdvances([2], false, Moded);
    PoisedAdvances(3, [2], true, Flushed);
    AloneAdvances([2], true, Flushed);
    PoisedAdvances(4, [2], true, Closed);
    AloneAdvances([2], true, Closed);
  }

  lemma GapTimely(entry: Entry, e: Event)
    requires e == Advance(0) || e == Break(0)
    ensures var t := Step(SmallCodec(), Alone(StageAt([2], true, Rechecked)), Outside(entry));
            Timely(t, e) <==> e == Break(0) || entry == FIRST
  {
    var t := Step(SmallCodec(), Alone(StageAt([2], true, Rechecked)), Outside(entry));
    assert PhaseOf(t, 0) == StageAt([2], true, Rechecked) && Visible(t) == entry;
  }

  lemma GapUndisturbed(entry: Entry, e: Event)
    requires e == Advance(0) || e == Break(0)
    ensures Undisturbed(SmallCodec(), Initial(FIRST), Poised(5) + [Outside(entry)] + [e]) <==>
            e == Break(0) || entry == FIRST
  {
    var k, s, gap := SmallCodec(), Initial(FIRST), Poised(5);
    PoisedIsRechecked();
    RunAppend(k, s, gap, Outside(entry));
    RunAppend(k, s, gap + [Outside(entry)], e);
    GapTimely(entry, e);
  }

  lemma GapOutcome(entry: Entry, e: Event)
    requires e == Advance(0) || e == Break(0)
    ensures Chained(SmallCodec(), Run(SmallCodec(), Initial(FIRST), Poised(5) + [Outside(entry)] + [e]).history) <==>
            e == Break(0) || entry == FIRST
  {
    SmallCodecIsLawful();
    GapUndisturbed(entry, e);
    RunsChainExactly(SmallCodec(), FIRST, Poised(5) + [Outside(entry)] + [e]);
  }

  // The condition is missed by a run that exists: a foreign file put between
  // the recheck and the rename is overwritten and the chain is broken. The
  // place of the write alone does not decide: putting back the same file, or
  // a call that gives up, leaves the chain whole.
  lemma GapLosesAnUpdate(entry: Entry)
    requires entry != FIRST
    ensures var k, s, gap := SmallCodec(), Initial(FIRST), Poised(5);
            && Lawful(k)
            && !Chained(k, Run(k, s, gap + [Outside(entry)] + [Advance(0)]).history)
            && Chained(k, Run(k, s, gap + [Outside(FIRST)] + [Advance(0)]).history)
            && Chained(k, Run(k, s, gap + [Outside(entry)] + [Break(0)]).history)
  {
    SmallCodecIsLawful();
    GapOutcome(entry, Advance(0));
    GapOutcome(FIRST, Advance(0));
    GapOutcome(entry, Break(0));
  }
}
