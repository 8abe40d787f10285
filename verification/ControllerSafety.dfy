// What every run of the policy controller keeps.
module ControllerSafety {
  import opened Common
  import opened Packets
  import opened FlowKey
  import opened Selector
  import opened Compilation
  import opened Configuration
  import opened ConfigRepository
  import opened Controller

  // ------------------------------------------------- publications are sound

  // The published selector is the compilation of the published configuration,
  // which agrees with the first one on everything that needs a restart, and
  // the overlay fits it.
  ghost predicate Published(k: Codec, first: Config, s: State) {
    var c := s.current;
    && c.selector == Compile(PolicyOf(c.config), s.safety)
    && ValidConfig(k, c.config) && SameFrozen(first, c.config)
    && ValidFlows(c.overlay.muted, OverlayLimit(c.config))
    && ValidFlows(c.overlay.soloed, OverlayLimit(c.config))
    && (c.mode != Ready ==> s.file.Some?)
    && (c.pendingConfig.Some? ==> ValidConfig(k, c.pendingConfig.value))
  }

  lemma FrozenLimit(a: Config, b: Config, flows: set<FlowId>)
    requires SameFrozen(a, b)
    ensures ValidFlows(flows, OverlayLimit(a)) <==> ValidFlows(flows, OverlayLimit(b))
  {
  }

  lemma ChangePublishes(k: Codec, first: Config, s: State, candidate: Config, change: Change, f: Faults)
    requires Published(k, first, s) && s.file.Some?
    requires ValidConfig(k, candidate) && SameFrozen(s.current.config, candidate)
    requires change.after.config == candidate
    ensures Published(k, first, Publish(k, s, candidate, change, f).0)
  {
    var after := Publish(k, s, candidate, change, f).0;
    if f.apply {
      assert after.current == s.current.(mode := after.current.mode);
    } else {
      FrozenLimit(s.current.config, candidate, s.current.overlay.muted);
      FrozenLimit(s.current.config, candidate, s.current.overlay.soloed);
    }
  }

  lemma FailurePublishes(k: Codec, first: Config, s: State, durable: Revision, error: Error, readFails: bool)
    requires Published(k, first, s) && s.file.Some?
    ensures Published(k, first, AfterFailure(k, s, durable, error, readFails))
  {
  }

  // A done repository call installed the configuration, whatever was written
  // around it.
  lemma SubmitInstalls(k: Codec, s: State, expected: Revision, config: Config, f: Faults)
    requires Lawful(k) && s.file.Some?
    ensures var outcome := Submit(k, s, expected, config, f).1;
            outcome.Done? ==> outcome.change.after.config == config
  {
    ReplaceInstallsTheConfig(k, s.provenance, expected, config, Foreign(s, f.early).file.value, f.replace);
  }

  lemma PersistPublishes(k: Codec, first: Config, s: State, expected: Revision, candidate: Config, f: Faults)
    requires Lawful(k) && Published(k, first, s) && s.file.Some?
    requires ValidConfig(k, candidate) && SameFrozen(s.current.config, candidate)
    ensures Published(k, first, Persist(k, s, expected, candidate, f).0)
  {
    SubmitInstalls(k, s, expected, candidate, f);
    var (t, outcome) := Submit(k, s, expected, candidate, f);
    assert Published(k, first, t);
    match outcome
    case Failed(error) => FailurePublishes(k, first, t, s.current.revision, error, f.secondRead);
    case Done(change) => ChangePublishes(k, first, t, candidate, change, f);
  }

  lemma TransactPublishes(k: Codec, first: Config, s: State, expected: Revision, build: Config -> Option<Config>, f: Faults)
    requires Lawful(k) && Published(k, first, s)
    ensures Published(k, first, Transact(k, s, expected, build, f).0)
  {
    TransactPersists(k, s, expected, build, f);
    if Submits(k, s, expected, build, f) {
      PersistPublishes(k, first, s, expected, Candidate(k, s, build, f).value, f);
    }
  }

  // The configuration a transaction proposes.
  ghost function Candidate(k: Codec, s: State, build: Config -> Option<Config>, f: Faults): (c: Option<Config>) {
    if s.current.mode == OutOfSync then
      var durable := ReadFile(k, s, f.firstRead);
      if durable.Some? then build(durable.value.config) else None
    else build(s.current.config)
  }

  // The transaction gets as far as the repository.
  ghost predicate Submits(k: Codec, s: State, expected: Revision, build: Config -> Option<Config>, f: Faults) {
    var candidate := Candidate(k, s, build, f);
    && s.file.Some? && !f.cancelledFirst && !f.cancelledBuilt && !f.cancelledLast
    && s.current.mode != Degraded && s.current.mode != RestartPending
    && (if s.current.mode == OutOfSync
        then ReadFile(k, s, f.firstRead).Some? && ReadFile(k, s, f.firstRead).value.revision == expected
        else expected == s.current.revision)
    && candidate.Some? && ValidConfig(k, candidate.value) && SameFrozen(s.current.config, candidate.value)
  }

  // A transaction either stops before the repository and changes nothing, or
  // persists its candidate.
  lemma TransactPersists(k: Codec, s: State, expected: Revision, build: Config -> Option<Config>, f: Faults)
    ensures if Submits(k, s, expected, build, f)
            then Transact(k, s, expected, build, f) == Persist(k, s, expected, Candidate(k, s, build, f).value, f)
            else Transact(k, s, expected, build, f).0 == s
  {
  }

  // Only the mode, the pending generation and the file differ.
  ghost predicate SamePolicy(k: Codec, s: State, after: State) {
    && after.current.config == s.current.config && after.current.selector == s.current.selector
    && after.current.overlay == s.current.overlay && after.safety == s.safety
    && (after.current.mode != Ready ==> after.file.Some? || after.current.mode == s.current.mode)
    && (after.file.Some? <==> s.file.Some?)
    && (after.current.pendingConfig.None? || after.current.pendingConfig == s.current.pendingConfig
        || ValidConfig(k, after.current.pendingConfig.value))
  }

  lemma SamePolicyPublishes(k: Codec, first: Config, s: State, after: State)
    requires Published(k, first, s) && SamePolicy(k, s, after)
    ensures Published(k, first, after)
  {
  }

  lemma FileRequestsKeepPolicy(k: Codec, s: State, e: Input)
    requires Lawful(k) && (e.Staging? || e.Cancelling? || e.Outside?)
    ensures SamePolicy(k, s, Step(k, s, e))
  {
    if e.Staging? && s.file.Some? {
      var durable := if s.current.mode == RestartPending then s.current.pendingRevision else s.current.revision;
      SubmitInstalls(k, s, durable, e.candidate, e.faults);
    }
  }

  lemma OverlayPublishes(k: Codec, first: Config, s: State, mute: bool, flows: set<FlowId>, cancelled: bool)
    requires Published(k, first, s)
    ensures Published(k, first, ReplaceOverlay(s, mute, flows, cancelled).0)
  {
  }

  lemma SafetyPublishes(k: Codec, first: Config, s: State, source: SafetySource)
    requires Published(k, first, s)
    ensures Published(k, first, ConfigureSafety(s, source))
  {
  }

  lemma StepPublishes(k: Codec, first: Config, s: State, e: Input)
    requires Lawful(k) && Published(k, first, s)
    ensures Published(k, first, Step(k, s, e))
  {
    match e
    case Transaction(expected, build, faults) => TransactPublishes(k, first, s, expected, build, faults);
    case OverlayChange(mute, flows, cancelled) => OverlayPublishes(k, first, s, mute, flows, cancelled);
    case SafetyChange(source) => SafetyPublishes(k, first, s, source);
    case _ =>
      FileRequestsKeepPolicy(k, s, e);
      SamePolicyPublishes(k, first, s, Step(k, s, e));
  }

  // Over every run, whatever fails and whoever else writes the file: the
  // frozen settings never change, every published selector is the compilation
  // of the configuration published with it, the overlay stays valid and
  // within the capacity, and only a controller with a repository leaves Ready.
  lemma {:induction false} RunsPublish(k: Codec, first: State, given: Config, events: seq<Input>)
    requires Lawful(k) && Open(k, first.file, first.provenance, given, first.safety) == Some(first)
    ensures Published(k, first.current.config, Run(k, first, events))
    decreases |events|
  {
    if |events| > 0 {
      RunsPublish(k, first, given, events[..|events| - 1]);
      StepPublishes(k, first.current.config, Run(k, first, events[..|events| - 1]), events[|events| - 1]);
    }
  }

  // Configuration requests and safety changes keep the overlay.
  lemma OverlaySurvives(k: Codec, s: State, e: Input)
    requires !e.OverlayChange?
    ensures Step(k, s, e).current.overlay == s.current.overlay
  {
  }

  // A degraded controller stays degraded.
  lemma DegradedStays(k: Codec, s: State, e: Input)
    requires s.current.mode == Degraded
    ensures Step(k, s, e).current.mode == Degraded
  {
  }

  lemma {:induction false} DegradedForGood(k: Codec, s: State, events: seq<Input>)
    requires s.current.mode == Degraded
    ensures Run(k, s, events).current.mode == Degraded
    ensures Run(k, s, events).current.config == s.current.config
    decreases |events|
  {
    if |events| > 0 {
      DegradedForGood(k, s, events[..|events| - 1]);
      DegradedStays(k, Run(k, s, events[..|events| - 1]), events[|events| - 1]);
    }
  }

  // --------------------------------------------------------- own traffic

  lemma SafetyStays(k: Codec, s: State, e: Input)
    requires !e.SafetyChange?
    ensures Step(k, s, e).safety == s.safety
  {
  }

  lemma {:induction false} SafetyStaysOver(k: Codec, s: State, events: seq<Input>)
    requires forall i | 0 <= i < |events| :: !events[i].SafetyChange?
    ensures Run(k, s, events).safety == s.safety
    decreases |events|
  {
    if |events| > 0 {
      SafetyStaysOver(k, s, events[..|events| - 1]);
      SafetyStays(k, Run(k, s, events[..|events| - 1]), events[|events| - 1]);
    }
  }

  lemma {:induction false} RunsKeepPublished(k: Codec, first: Config, s: State, events: seq<Input>)
    requires Lawful(k) && Published(k, first, s)
    ensures Published(k, first, Run(k, s, events))
    decreases |events|
  {
    if |events| > 0 {
      RunsKeepPublished(k, first, s, events[..|events| - 1]);
      StepPublishes(k, first, Run(k, s, events[..|events| - 1]), events[|events| - 1]);
    }
  }

  lemma PublishedIgnores(k: Codec, first: Config, s: State, identify: (string, Key) -> FlowId, packet: Packets.Event)
    requires Published(k, first, s) && ValidEvent(packet) && OwnTraffic(s.safety, packet)
    ensures var r := Evaluate(s.current.selector, identify, packet, s.current.overlay);
            r.Some? && r.value.state == Ignore
  {
    OwnTrafficIsIgnored(PolicyOf(s.current.config), s.safety, identify, packet, s.current.overlay);
  }

  lemma ConfiguredStays(k: Codec, start: State, given: Config, before: seq<Input>, source: SafetySource, later: seq<Input>)
    requires Lawful(k) && Open(k, start.file, start.provenance, given, start.safety) == Some(start)
    requires forall i | 0 <= i < |later| :: !later[i].SafetyChange?
    ensures var s := Run(k, ConfigureSafety(Run(k, start, before), source), later);
            s.safety == source && Published(k, start.current.config, s)
  {
    RunsPublish(k, start, given, before);
    SafetyPublishes(k, start.current.config, Run(k, start, before), source);
    var configured := ConfigureSafety(Run(k, start, before), source);
    RunsKeepPublished(k, start.current.config, configured, later);
    SafetyStaysOver(k, configured, later);
  }

  // Once the safety rules are configured, no later request of any kind makes
  // the application's own traffic select anything but ignore.
  lemma OwnTrafficStaysIgnored(k: Codec, start: State, given: Config, before: seq<Input>, source: SafetySource,
                               later: seq<Input>, identify: (string, Key) -> FlowId, packet: Packets.Event)
    requires Lawful(k) && Open(k, start.file, start.provenance, given, start.safety) == Some(start)
    requires forall i | 0 <= i < |later| :: !later[i].SafetyChange?
    requires ValidEvent(packet) && OwnTraffic(source, packet)
    ensures var c := Run(k, ConfigureSafety(Run(k, start, before), source), later).current;
            var r := Evaluate(c.selector, identify, packet, c.overlay);
            r.Some? && r.value.state == Ignore
  {
    ConfiguredStays(k, start, given, before, source, later);
    PublishedIgnores(k, start.current.config, Run(k, ConfigureSafety(Run(k, start, before), source), later),
                     identify, packet);
  }

  // ------------------------------------------------- agreement with the file

  // The revision is that of bytes that decode to the configuration.
  ghost predicate Anchored(k: Codec, revision: Revision, config: Config) {
    exists b :: k.digest(b) == revision && k.decode(b) == Some(config)
  }

  lemma AnchoredSnapshot(k: Codec, revision: Revision, config: Config, s: Snapshot)
    requires Lawful(k) && Anchored(k, revision, config)
    requires Take(k, s.contents, s.mode) == Some(s) && s.revision == revision
    ensures s.config == config
  {
    var b :| k.digest(b) == revision && k.decode(b) == Some(config);
    SameRevision(k, b, s.contents);
  }

  ghost predicate Holds(k: Codec, file: Option<Entry>, revision: Revision, config: Config) {
    file.Some? && Look(k, file.value).Some?
    && Look(k, file.value).value.revision == revision && Look(k, file.value).value.config == config
  }

  // What the controller's mode promises about the file.
  ghost predicate Agrees(k: Codec, s: State) {
    var c := s.current;
    match c.mode
    case Ready => s.file.Some? ==> Holds(k, s.file, c.revision, c.config)
    case DurabilityUncertain => Holds(k, s.file, c.revision, c.config)
    case RestartPending => c.pendingRevision != "" && c.pendingConfig.Some?
                           && Holds(k, s.file, c.pendingRevision, c.pendingConfig.value)
    case OutOfSync => s.file.Some?
    case Degraded => s.file.Some?
  }

  ghost predicate Agreement(k: Codec, s: State) {
    Agrees(k, s) && Anchored(k, s.current.revision, s.current.config)
  }

  lemma HeldIsAnchored(k: Codec, file: Option<Entry>, revision: Revision, config: Config)
    requires Holds(k, file, revision, config)
    ensures Anchored(k, revision, config)
  {
    assert k.decode(file.value.contents) == Some(config);
  }

  // No other program writes during the request.
  predicate Calm(f: Faults) {
    f.early.None? && f.late.None?
  }

  // A failed replacement leaves a mode that tells the truth.
  lemma FailureAgrees(k: Codec, s: State, expected: Revision, config: Config, durable: Revision, f: Faults)
    requires Lawful(k) && Agreement(k, s) && s.file.Some? && Calm(f)
    requires Submit(k, s, expected, config, f).1.Failed?
    ensures var (t, outcome) := Submit(k, s, expected, config, f);
            t == s && Agreement(k, AfterFailure(k, t, durable, outcome.error, f.secondRead))
  {
    ResultTellsTheFile(k, s.provenance, Replacement(expected, config), s.file.value, f.replace);
  }

  lemma DoneHolds(k: Codec, s: State, expected: Revision, config: Config, f: Faults)
    requires Lawful(k) && s.file.Some? && Calm(f) && Submit(k, s, expected, config, f).1.Done?
    ensures var (t, outcome) := Submit(k, s, expected, config, f);
            && Holds(k, t.file, outcome.change.after.revision, config)
            && outcome.change.after.config == config && outcome.change.after.revision != ""
            && Anchored(k, outcome.change.after.revision, config)
  {
    ResultTellsTheFile(k, s.provenance, Replacement(expected, config), s.file.value, f.replace);
    ReplaceInstallsTheConfig(k, s.provenance, expected, config, s.file.value, f.replace);
    var (t, outcome) := Submit(k, s, expected, config, f);
    HeldIsAnchored(k, t.file, outcome.change.after.revision, config);
  }

  lemma StageAgrees(k: Codec, s: State, expected: Revision, candidate: Config, f: Faults)
    requires Lawful(k) && Agreement(k, s) && Calm(f)
    ensures Agreement(k, Stage(k, s, expected, candidate, f).0)
  {
    var durable := if s.current.mode == RestartPending then s.current.pendingRevision else s.current.revision;
    if s.file.Some? {
      if Submit(k, s, durable, candidate, f).1.Failed? {
        FailureAgrees(k, s, durable, candidate, durable, f);
      } else {
        DoneHolds(k, s, durable, candidate, f);
      }
    }
  }

  lemma CancelAgrees(k: Codec, s: State, expected: Revision, f: Faults)
    requires Lawful(k) && Agreement(k, s) && Calm(f)
    ensures Agreement(k, Cancel(k, s, expected, f).0)
  {
    var c := s.current;
    if s.file.Some? {
      if Submit(k, s, c.pendingRevision, c.config, f).1.Failed? {
        FailureAgrees(k, s, c.pendingRevision, c.config, c.pendingRevision, f);
      } else {
        DoneHolds(k, s, c.pendingRevision, c.config, f);
      }
    }
  }

  // Publication without a failing apply agrees with the file.
  lemma PersistAgrees(k: Codec, s: State, expected: Revision, candidate: Config, f: Faults)
    requires Lawful(k) && Agreement(k, s) && s.file.Some? && !f.apply && Calm(f)
    ensures Agreement(k, Persist(k, s, expected, candidate, f).0)
  {
    if Submit(k, s, expected, candidate, f).1.Failed? {
      FailureAgrees(k, s, expected, candidate, s.current.revision, f);
    } else {
      DoneHolds(k, s, expected, candidate, f);
      ResultTellsTheFile(k, s.provenance, Replacement(expected, candidate), s.file.value, f.replace);
    }
  }

  // ------------------------------------------------------- a failing apply

  // The operations whose failure makes a repository call fail.
  const FATAL: set<Operation> := LOCKING + {FirstRead} + COMMITTING

  // The candidate goes to the file over another configuration and comes off
  // it again.
  predicate GoesAndComes(k: Codec, s: State, expected: Revision, candidate: Config, f: Faults)
    requires s.file.Some?
  {
    var found := Look(k, s.file.value);
    && found.Some? && found.value.revision == expected && found.value.config != candidate
    && k.encode(found.value.config).Some?
    && k.encode(candidate).Some? && |k.encode(candidate).value| <= MAXIMUM_BYTES
    && OwnerOnly(found.value.mode)
    && f.replace !! FATAL && f.rollback !! FATAL
  }

  // When a replacement changes the file.
  lemma ReplacementChanges(k: Codec, provenance: nat, expected: Revision, candidate: Config, entry: Entry, fails: set<Operation>)
    requires Lawful(k)
    ensures var (file, outcome) := Perform(k, provenance, Replacement(expected, candidate), entry, fails);
            var found := Look(k, entry);
            (outcome.Done? && Changed(outcome.change)) <==>
              && found.Some? && found.value.revision == expected && found.value.config != candidate
              && k.encode(found.value.config).Some?
              && k.encode(candidate).Some? && |k.encode(candidate).value| <= MAXIMUM_BYTES
              && OwnerOnly(found.value.mode) && fails !! FATAL
  {
    ReplaceInstallsTheConfig(k, provenance, expected, candidate, entry, fails);
    FatalFaults(fails);
    var found := Look(k, entry);
    if found.Some? && k.encode(candidate).Some? {
      assert k.decode(k.encode(candidate).value) == Some(candidate);
      if k.encode(candidate) == k.encode(found.value.config) { EncodingsDiffer(k, candidate, found.value.config); }
    }
    var (file, outcome) := Perform(k, provenance, Replacement(expected, candidate), entry, fails);
    if found.Some? && Decide(k, provenance, Replacement(expected, candidate), found.value).Install? {
      InstallChanges(k, provenance, Replacement(expected, candidate), found.value);
    }
  }

  lemma FatalFaults(fails: set<Operation>)
    ensures fails !! FATAL <==> fails * LOCKING == {} && FirstRead !in fails && fails * COMMITTING == {}
  {
    forall o ensures o in fails * FATAL <==> o in fails * LOCKING || (o == FirstRead && o in fails) || o in fails * COMMITTING { }
    assert fails !! FATAL <==> fails * FATAL == {};
    if fails * FATAL != {} {
      var o :| o in fails * FATAL;
      assert o in fails * LOCKING || o == FirstRead || o in fails * COMMITTING;
    } else {
      assert forall o :: o !in fails * FATAL;
      assert FirstRead in fails ==> FirstRead in fails * FATAL;
    }
  }

  // A rollback right after its change succeeds exactly if nothing fatal fails.
  lemma RollbackRestores(k: Codec, provenance: nat, change: Change, fails: set<Operation>)
    requires Lawful(k) && change.provenance == provenance && Changed(change)
    requires Take(k, change.after.contents, change.after.mode) == Some(change.after)
    requires Take(k, change.before.contents, change.before.mode) == Some(change.before)
    requires OwnerOnly(change.before.mode) && change.after.mode == change.before.mode
    ensures var (file, outcome) := Perform(k, provenance, Restoration(change), FileOf(change.after), fails);
            && (outcome.Done? <==> fails !! FATAL)
            && (outcome.Done? ==> Look(k, file) == Some(change.before))
  {
    FatalFaults(fails);
    assert Look(k, FileOf(change.after)) == Some(change.after);
  }

  // With an apply that fails, a proposed candidate leaves the agreement
  // broken if and only if the caller named a revision other than the active
  // one, the file has it, and the candidate goes to the file and comes off it
  // again: the foreign generation is back, yet the mode promises the active
  // one.
  lemma FailedApply(k: Codec, s: State, expected: Revision, candidate: Config, f: Faults)
    requires Lawful(k) && Agreement(k, s) && s.file.Some? && f.apply && Calm(f)
    requires s.current.mode != RestartPending && s.current.mode != Degraded
    ensures Agreement(k, Persist(k, s, expected, candidate, f).0) <==>
            !(expected != s.current.revision && GoesAndComes(k, s, expected, candidate, f))
  {
    var job := Replacement(expected, candidate);
    var (t, outcome) := Submit(k, s, expected, candidate, f);
    ResultTellsTheFile(k, s.provenance, job, s.file.value, f.replace);
    ReplacementChanges(k, s.provenance, expected, candidate, s.file.value, f.replace);
    if outcome.Failed? {
      FailureAgrees(k, s, expected, candidate, s.current.revision, f);
    } else if !Changed(outcome.change) {
      DoneHolds(k, s, expected, candidate, f);
    } else {
      RolledBack(k, s, expected, candidate, f);
    }
  }

  lemma RolledBack(k: Codec, s: State, expected: Revision, candidate: Config, f: Faults)
    requires Lawful(k) && Agreement(k, s) && s.file.Some? && f.apply && Calm(f)
    requires Submit(k, s, expected, candidate, f).1.Done? && Changed(Submit(k, s, expected, candidate, f).1.change)
    ensures Agreement(k, Persist(k, s, expected, candidate, f).0) <==>
            (expected == s.current.revision || !(f.rollback !! FATAL))
  {
    var (t, outcome) := Submit(k, s, expected, candidate, f);
    var change := outcome.change;
    ResultTellsTheFile(k, s.provenance, Replacement(expected, candidate), s.file.value, f.replace);
    ReplaceInstallsTheConfig(k, s.provenance, expected, candidate, s.file.value, f.replace);
    ReplacementChanges(k, s.provenance, expected, candidate, s.file.value, f.replace);
    assert t.file == Some(FileOf(change.after));
    RollbackRestores(k, s.provenance, change, f.rollback);
    if change.before.revision == s.current.revision {
      AnchoredSnapshot(k, s.current.revision, s.current.config, change.before);
    }
  }

  // ------------------------------------------------ when the agreement holds

  // The transaction reconciles and rolls back to what it was to replace.
  ghost predicate Reverts(k: Codec, s: State, expected: Revision, build: Config -> Option<Config>, f: Faults) {
    && f.apply && expected != s.current.revision && Submits(k, s, expected, build, f)
    && GoesAndComes(k, s, expected, Candidate(k, s, build, f).value, f)
  }

  // The file at `entry` is still what the mode promises.
  predicate KeepsPromise(k: Codec, s: State, entry: Entry) {
    var found := Look(k, entry);
    match s.current.mode
    case Ready => s.file.None? || (found.Some? && found.value.revision == s.current.revision)
    case DurabilityUncertain => found.Some? && found.value.revision == s.current.revision
    case RestartPending => found.Some? && found.value.revision == s.current.pendingRevision
    case _ => true
  }

  // What keeps the agreement: an apply that does not fail, or fails without
  // bringing back a foreign generation (the apply of the program never
  // fails); safety rules configured while nothing is pending; a foreign write
  // that leaves the promised revision.
  ghost predicate Prudent(k: Codec, s: State, e: Input) {
    match e
    case Transaction(expected, build, faults) => !Reverts(k, s, expected, build, faults)
    case SafetyChange(_) => s.current.mode != RestartPending
    case Outside(entry) => KeepsPromise(k, s, entry)
    case _ => true
  }

  // No other program writes the file during the request itself.
  predicate CalmInput(e: Input) {
    match e
    case Transaction(_, _, faults) => Calm(faults)
    case Staging(_, _, faults) => Calm(faults)
    case Cancelling(_, faults) => Calm(faults)
    case _ => true
  }

  lemma TransactAgrees(k: Codec, s: State, expected: Revision, build: Config -> Option<Config>, f: Faults)
    requires Lawful(k) && Agreement(k, s) && Calm(f)
    ensures Agreement(k, Transact(k, s, expected, build, f).0) <==> !Reverts(k, s, expected, build, f)
  {
    TransactPersists(k, s, expected, build, f);
    if Submits(k, s, expected, build, f) {
      var candidate := Candidate(k, s, build, f).value;
      if f.apply { FailedApply(k, s, expected, candidate, f); } else { PersistAgrees(k, s, expected, candidate, f); }
    }
  }

  lemma OverlayAgrees(k: Codec, s: State, mute: bool, flows: set<FlowId>, cancelled: bool)
    requires Agreement(k, s)
    ensures Agreement(k, ReplaceOverlay(s, mute, flows, cancelled).0)
  {
  }

  // Configuring safety keeps the agreement exactly if nothing is pending.
  lemma SafetyAgreesWhenNothingPending(k: Codec, s: State, source: SafetySource)
    requires Agreement(k, s)
    ensures Agreement(k, ConfigureSafety(s, source)) <==> s.current.mode != RestartPending
  {
  }

  // A file with the revision of another holds the same configuration.
  lemma SameRevisionHolds(k: Codec, file: Option<Entry>, entry: Entry, revision: Revision, config: Config)
    requires Lawful(k) && Holds(k, file, revision, config)
    ensures Holds(k, Some(entry), revision, config) <==> Look(k, entry).Some? && Look(k, entry).value.revision == revision
  {
    if Look(k, entry).Some? && Look(k, entry).value.revision == revision {
      SameRevision(k, file.value.contents, entry.contents);
    }
  }

  lemma OutsideAgrees(k: Codec, s: State, entry: Entry)
    requires Lawful(k) && Agreement(k, s)
    ensures Agreement(k, Foreign(s, Some(entry))) <==> KeepsPromise(k, s, entry)
  {
    var c := s.current;
    if s.file.Some? {
      match c.mode
      case Ready => SameRevisionHolds(k, s.file, entry, c.revision, c.config);
      case DurabilityUncertain => SameRevisionHolds(k, s.file, entry, c.revision, c.config);
      case RestartPending => SameRevisionHolds(k, s.file, entry, c.pendingRevision, c.pendingConfig.value);
      case _ =>
    }
  }

  // A step from an agreeing state keeps the agreement if and only if it is
  // prudent.
  lemma StepAgrees(k: Codec, s: State, e: Input)
    requires Lawful(k) && Agreement(k, s) && CalmInput(e)
    ensures Agreement(k, Step(k, s, e)) <==> Prudent(k, s, e)
  {
    match e
    case Transaction(expected, build, faults) => TransactAgrees(k, s, expected, build, faults);
    case Staging(expected, candidate, faults) => StageAgrees(k, s, expected, candidate, faults);
    case Cancelling(expected, faults) => CancelAgrees(k, s, expected, faults);
    case OverlayChange(mute, flows, cancelled) => OverlayAgrees(k, s, mute, flows, cancelled);
    case SafetyChange(source) => SafetyAgreesWhenNothingPending(k, s, source);
    case Outside(entry) => OutsideAgrees(k, s, entry);
  }

  ghost predicate PrudentRun(k: Codec, s: State, events: seq<Input>) {
    |events| == 0 ||
    (PrudentRun(k, s, events[..|events| - 1]) && Prudent(k, Run(k, s, events[..|events| - 1]), events[|events| - 1]))
  }

  // The agreement holds after every request of the run.
  ghost predicate AlwaysAgrees(k: Codec, s: State, events: seq<Input>) {
    Agreement(k, Run(k, s, events)) && (|events| == 0 || AlwaysAgrees(k, s, events[..|events| - 1]))
  }

  lemma OpenAgrees(k: Codec, first: State, given: Config)
    requires Lawful(k) && Open(k, first.file, first.provenance, given, first.safety) == Some(first)
    ensures Agreement(k, first)
  {
    var c := first.current;
    if first.file.Some? {
      HeldIsAnchored(k, first.file, c.revision, c.config);
    } else {
      assert k.digest(k.encode(given).value) == c.revision && k.decode(k.encode(given).value) == Some(c.config);
    }
  }

  // Over every run the mode tells the truth about the file after every
  // request, if and only if every step is prudent: Ready and
  // DurabilityUncertain promise the active generation, RestartPending the
  // pending one, and every other mode at least that there is a file.
  lemma {:induction false} RunsAgree(k: Codec, first: State, given: Config, events: seq<Input>)
    requires Lawful(k) && Open(k, first.file, first.provenance, given, first.safety) == Some(first)
    requires forall e | e in events :: CalmInput(e)
    ensures AlwaysAgrees(k, first, events) <==> PrudentRun(k, first, events)
    decreases |events|
  {
    if |events| == 0 {
      OpenAgrees(k, first, given);
    } else {
      var earlier := events[..|events| - 1];
      RunsAgree(k, first, given, earlier);
      assert events[|events| - 1] in events;
      if AlwaysAgrees(k, first, earlier) {
        StepAgrees(k, Run(k, first, earlier), events[|events| - 1]);
      }
    }
  }

  // The generation a controller promises for the next start.
  ghost function Promised(s: State): (r: Option<(Revision, Config)>) {
    match s.current.mode
    case Ready => Some((s.current.revision, s.current.config))
    case DurabilityUncertain => Some((s.current.revision, s.current.config))
    case RestartPending =>
      if s.current.pendingConfig.Some? then Some((s.current.pendingRevision, s.current.pendingConfig.value)) else None
    case _ => None
  }

  // A restart over the same file loads exactly the promised generation.
  lemma RestartLoadsThePromise(k: Codec, first: State, given: Config, events: seq<Input>, other: Config,
                               provenance: nat, safety: SafetySource)
    requires Lawful(k) && Open(k, first.file, first.provenance, given, first.safety) == Some(first)
    requires (forall e | e in events :: CalmInput(e)) && PrudentRun(k, first, events)
    requires Run(k, first, events).file.Some?
    ensures var s := Run(k, first, events);
            var restarted := Open(k, s.file, provenance, other, safety);
            Promised(s).Some? ==>
              restarted.Some? && Promised(s).value == (restarted.value.current.revision, restarted.value.current.config)
  {
    RunsAgree(k, first, given, events);
    RunsPublish(k, first, given, events);
    RestartLoads(k, first.current.config, Run(k, first, events), other, provenance, safety);
  }

  lemma RestartLoads(k: Codec, first: Config, s: State, other: Config, provenance: nat, safety: SafetySource)
    requires Agreement(k, s) && Published(k, first, s) && s.file.Some?
    ensures var restarted := Open(k, s.file, provenance, other, safety);
            Promised(s).Some? ==>
              restarted.Some? && Promised(s).value == (restarted.value.current.revision, restarted.value.current.config)
  {
  }

  // ------------------------------------------------- where the agreement fails

  // The active generation is Plain(2); another program stored Plain(1).
  function Diverged(): (s: State) {
    var c := Plain(2);
    State(Some(Regular([1], 384)), 0, NoSafety,
          PolicySnapshot(Spell([2]), c, "", None, Compile(PolicyOf(c), NoSafety), Overlay({}, {}), OutOfSync))
  }

  const APPLY_FAILS: Faults := Faults(false, false, false, false, {}, false, true, {}, None, None)

  lemma DivergedDecides()
    ensures var k := SmallCodec();
            var current, target := Snapshot(Plain(1), Spell([1]), [1], 384), Snapshot(Plain(2), Spell([2]), [2], 384);
            && Spell([1]) != Spell([2])
            && Look(k, FileOf(current)) == Some(current) && Look(k, FileOf(target)) == Some(target)
            && Decide(k, 0, Replacement(Spell([1]), Plain(2)), current) == Install(target)
  {
    assert Spell([1])[1] == 1 as char && Spell([2])[1] == 2 as char;
  }

  lemma DivergedChanges()
    ensures var k := SmallCodec();
            var change := Change(Snapshot(Plain(1), Spell([1]), [1], 384), Snapshot(Plain(2), Spell([2]), [2], 384), false, 0);
            && Perform(k, 0, Replacement(Spell([1]), Plain(2)), FileOf(change.before), {}) == (FileOf(change.after), Done(change))
            && Perform(k, 0, Restoration(change), FileOf(change.after), {}) == (FileOf(change.before), Done(Reversed(change)))
  {
    SmallCodecIsLawful();
    DivergedDecides();
    var current, target := Snapshot(Plain(1), Spell([1]), [1], 384), Snapshot(Plain(2), Spell([2]), [2], 384);
    PerformInstalls(SmallCodec(), 0, Replacement(Spell([1]), Plain(2)), FileOf(current), current, target);
    RestoresPrior(SmallCodec(), 0, Change(current, target, false, 0));
  }

  // The agreement fails when the apply fails while reconciling: the rollback
  // brings back the foreign generation, yet Ready is published.
  lemma FailingApplyBreaksAgreement()
    ensures var k, s := SmallCodec(), Diverged();
            var after := Transact(k, s, Spell([1]), (c: Config) => Some(Plain(2)), APPLY_FAILS).0;
            && Lawful(k) && Agreement(k, s)
            && after.current.mode == Ready && !Agreement(k, after)
  {
    SmallCodecIsLawful();
    DivergedDecides();
    DivergedChanges();
    var k, s := SmallCodec(), Diverged();
    assert k.digest([2]) == s.current.revision && k.decode([2]) == Some(s.current.config);
    assert ValidConfig(k, Plain(2));
    TransactPersists(k, s, Spell([1]), (c: Config) => Some(Plain(2)), APPLY_FAILS);
  }

  const NO_FAULTS: Faults := Faults(false, false, false, false, {}, false, false, {}, None, None)

  // A fresh controller over a file with the first small configuration.
  function Fresh(): (s: State) {
    State(Some(Regular([1], 384)), 0, NoSafety,
          PolicySnapshot(Spell([1]), Plain(1), "", None, Compile(PolicyOf(Plain(1)), NoSafety), Overlay({}, {}), Ready))
  }

  lemma FreshStages()
    ensures var k := SmallCodec();
            var s := Stage(k, Fresh(), Spell([1]), RESEEDED, NO_FAULTS).0;
            && s.current.mode == RestartPending
            && Open(k, Fresh().file, 0, Plain(1), NoSafety) == Some(Fresh())
  {
    var k := SmallCodec();
    assert ValidConfig(k, Plain(1)) && ValidConfig(k, RESEEDED);
    var current, target := Snapshot(Plain(1), Spell([1]), [1], 384), Snapshot(RESEEDED, Spell([3]), [3], 384);
    assert Look(k, Regular([1], 384)) == Some(current);
    assert Decide(k, 0, Replacement(Spell([1]), RESEEDED), current) == Install(target);
  }

  lemma FreshStagesAgreeing()
    ensures var s := Stage(SmallCodec(), Fresh(), Spell([1]), RESEEDED, NO_FAULTS).0;
            s.current.mode == RestartPending && Agreement(SmallCodec(), s)
  {
    SmallCodecIsLawful();
    FreshStages();
    OpenAgrees(SmallCodec(), Fresh(), Plain(1));
    StageAgrees(SmallCodec(), Fresh(), Spell([1]), RESEEDED, NO_FAULTS);
  }

  lemma PendingForgotten(k: Codec, first: State, expected: Revision, candidate: Config, f: Faults, source: SafetySource)
    requires Agreement(k, Stage(k, first, expected, candidate, f).0)
    requires Stage(k, first, expected, candidate, f).0.current.mode == RestartPending
    ensures var s := Run(k, first, [Staging(expected, candidate, f)]);
            Agreement(k, s) && !Agreement(k, Step(k, s, SafetyChange(source)))
  {
    var e := Staging(expected, candidate, f);
    assert [e][..0] == [];
    assert Run(k, first, [e]) == Step(k, first, e);
    SafetyAgreesWhenNothingPending(k, Step(k, first, e), source);
  }

  // The agreement fails when safety rules are configured while a generation
  // is pending: a run of two requests loses it.
  lemma SafetyForgetsThePending(source: SafetySource) returns (k: Codec, first: State, events: seq<Input>)
    ensures Lawful(k) && Open(k, first.file, first.provenance, first.current.config, first.safety) == Some(first)
    ensures Agreement(k, Run(k, first, events)) && !Agreement(k, Step(k, Run(k, first, events), SafetyChange(source)))
  {
    SmallCodecIsLawful();
    FreshStages();
    FreshStagesAgreeing();
    PendingForgotten(SmallCodec(), Fresh(), Spell([1]), RESEEDED, NO_FAULTS, source);
    k, first, events := SmallCodec(), Fresh(), [Staging(Spell([1]), RESEEDED, NO_FAULTS)];
  }
}
